/** The session state machine: login, logout, section navigation, the quick action and the
    profile-editing handlers, each a step from one state to the next with its visible effects.
    Timers are collapsed: a successful login and a bot reply complete within their step. */
module Session {
  import opened Wrappers
  import opened Text
  import opened Seqs
  import opened Users
  import opened Navigation
  import opened Profile

  /** The page's state. `currentUser` is the key of the logged-in user's record in `users`: the
      script holds a reference to that record, so every edit lands in the store itself.
      `menu` is the sidebar as last rendered. */
  datatype State = State(
    users: map<string, User>,
    currentUser: Option<string>,
    currentSection: string,
    menu: seq<MenuItem>)

  /** The page after load: the seed users, nobody logged in, an empty sidebar. */
  const Initial: State := State(SeedUsers, None, "dashboard", [])

  /** What a step shows besides the new state. `Fault` is an uncaught TypeError: the handler read a
      property of `null` or `undefined` and stopped. */
  datatype Effect =
    | Toast(title: string, message: string)
    | Navigated(breadcrumb: string, loader: Loader)
    | ShowCompletion(percent: int)
    | ShowRoadmap(missing: seq<string>)
    | OpenModal(id: string)
    | Fault

  datatype Outcome = Outcome(state: State, effects: seq<Effect>)

  /** The logged-in user's record. */
  function Current(st: State): (u: Option<User>)
    ensures u.Some? <==> st.currentUser.Some? && st.currentUser.value in st.users
    ensures u.Some? ==> u.value == st.users[st.currentUser.value]
  {
    if st.currentUser.Some? && st.currentUser.value in st.users then Some(st.users[st.currentUser.value]) else None
  }

  /** Writes the logged-in user's record back into the store. */
  function Store(st: State, u: User): (r: State)
    requires st.currentUser.Some?
    ensures r == st.(users := r.users)
    ensures r.users.Keys == st.users.Keys + {st.currentUser.value}
    ensures r.users[st.currentUser.value] == u
    ensures forall k :: k in st.users && k != st.currentUser.value ==> r.users[k] == st.users[k]
  {
    st.(users := st.users[st.currentUser.value := u])
  }

  // ---------------- Authentication ----------------

  /** The login form's username and password match the credential table. */
  predicate CredentialsMatch(username: string, password: string) {
    var name := Trim(username);
    name in Credentials && Credentials[name] == password
  }

  /** The stored record exists and carries the selected role. */
  predicate RoleMatches(st: State, username: string, role: string) {
    var name := Trim(username);
    name in st.users && st.users[name].kind.Name() == role
  }

  /** `navigateToSection(id)`: the section is switched with no check that `id` is in the menu; the
      breadcrumb and the loader are derived from the id. */
  function Navigate(st: State, id: string): (o: Outcome)
    ensures o.state == st.(currentSection := id)
    ensures |o.effects| == 1 && o.effects[0].Navigated?
    ensures o.effects[0].loader == LoaderFor(id)
    ensures id !in Ids(st.menu) ==> o.effects[0].breadcrumb == "Dashboard"
    ensures forall i :: FirstFor(st.menu, id, i) && st.menu[i].Text() != [] ==> o.effects[0].breadcrumb == st.menu[i].Text()
  {
    Outcome(st.(currentSection := id), [Navigated(Breadcrumb(st.menu, id), LoaderFor(id))])
  }

  /** `handleLogin`: the credential check comes first, with the username trimmed and the password
      compared as typed; then the stored record's role must be the selected one. Either failure
      leaves the state as it was. On success the user becomes current; then the completion timer
      renders the role's menu, opens the dashboard and greets the user by name. A record without a
      `name` makes that timer throw at `currentUser.name.charAt(0)`: the user stays current, but
      the menu and the section are left as they were. */
  function Login(st: State, role: string, username: string, password: string): (o: Outcome)
    ensures !CredentialsMatch(username, password) ==> o == Outcome(st, [Toast("Error", "Invalid credentials")])
    ensures CredentialsMatch(username, password) && !RoleMatches(st, username, role) ==>
      o == Outcome(st, [Toast("Error", "Role mismatch")])
    ensures CredentialsMatch(username, password) && RoleMatches(st, username, role) ==>
      o.state.currentUser == Some(Trim(username))
    ensures (CredentialsMatch(username, password) && RoleMatches(st, username, role)
             && "name" !in st.users[Trim(username)].fields) ==>
      o == Outcome(st.(currentUser := Some(Trim(username))), [Fault])
    ensures (CredentialsMatch(username, password) && RoleMatches(st, username, role)
             && "name" in st.users[Trim(username)].fields) ==>
      var name := Trim(username);
      && o.state.currentUser == Some(name)
      && o.state.users == st.users
      && o.state.currentSection == "dashboard"
      && o.state.menu == Menu(st.users[name].kind)
      && RoleNamed(role) == Some(st.users[name].kind)
  {
    var name := Trim(username);
    if !(name in Credentials && Credentials[name] == password) then
      Outcome(st, [Toast("Error", "Invalid credentials")])
    else if !(name in st.users && st.users[name].kind.Name() == role) then
      Outcome(st, [Toast("Error", "Role mismatch")])
    else
      var u := st.users[name];
      RoleNameRoundTrip(u.kind);
      if "name" !in u.fields then Outcome(st.(currentUser := Some(name)), [Fault])
      else
        var nav := Navigate(st.(currentUser := Some(name), menu := Menu(u.kind)), "dashboard");
        Outcome(nav.state, nav.effects + [Toast("Welcome", "Hello " + u.fields["name"] + "!")])
  }

  /** The logout button: nobody is current any more. Section, menu and store are left as they were. */
  function Logout(st: State): (o: Outcome)
    ensures o.state.currentUser.None?
    ensures o.state == st.(currentUser := None)
  {
    Outcome(st.(currentUser := None), [Toast("Logged out", "See you again!")])
  }

  /** `handleQuickAction`: students go to the job list, companies get the job-post dialog, every
      other role goes to analytics. */
  function QuickAction(st: State): (o: Outcome)
    ensures Current(st).None? ==> o == Outcome(st, [Fault])
    ensures Current(st).Some? && Current(st).value.kind == Company ==> o == Outcome(st, [OpenModal("jobPostModal")])
    ensures Current(st).Some? && Current(st).value.kind == Student ==> o.state == st.(currentSection := "jobs")
    ensures Current(st).Some? && Current(st).value.kind !in {Student, Company} ==> o.state == st.(currentSection := "analytics")
  {
    match Current(st)
    case None => Outcome(st, [Fault])
    case Some(u) =>
      match u.kind
      case Student => Navigate(st, "jobs")
      case Company => Outcome(st, [OpenModal("jobPostModal")])
      case _ => Navigate(st, "analytics")
  }

  // ---------------- Profile editing ----------------

  /** The outcome of a profile handler that replaces the current record by `u`. */
  function Edited(st: State, u: User, before: seq<Effect>): (o: Outcome)
    requires st.currentUser.Some?
    ensures o.state == Store(st, u)
  {
    Outcome(Store(st, u), before + [ShowCompletion(CompletionShown(u))])
  }

  /** The skill grid's click handler (`checked`: the item's `selected` class after the click). */
  function SkillClick(st: State, skill: string, checked: bool): (o: Outcome)
    ensures Current(st).None? || Current(st).value.skills.None? ==> o == Outcome(st, [Fault])
    ensures Current(st).Some? && Current(st).value.skills.Some? ==>
      o.state == Store(st, Current(st).value.(skills := Some(SelectSkill(Current(st).value.skills.value, skill, checked))))
  {
    match Current(st)
    case None => Outcome(st, [Fault])
    case Some(u) =>
      match ClickSkill(u, skill, checked)
      case None => Outcome(st, [Fault])
      case Some(u') => Edited(st, u', [])
  }

  /** The add-certification button: whitespace input does nothing, even with nobody logged in. */
  function AddCertificationClick(st: State, input: string): (o: Outcome)
    ensures AllSpace(input) ==> o == Outcome(st, [])
    ensures !AllSpace(input) && (Current(st).None? || Current(st).value.certifications.None?) ==> o == Outcome(st, [Fault])
    ensures !AllSpace(input) && Current(st).Some? && Current(st).value.certifications.Some? ==>
      o.state == Store(st, Current(st).value.(certifications := Some(AddCertification(Current(st).value.certifications.value, input))))
  {
    if AllSpace(input) then Outcome(st, [])
    else
      match Current(st)
      case None => Outcome(st, [Fault])
      case Some(u) =>
        match AddCertificationTo(u, input)
        case None => Outcome(st, [Fault])
        case Some(u') => Edited(st, u', [])
  }

  /** The personal-details form submit. */
  function PersonalSubmit(st: State, f: PersonalForm): (o: Outcome)
    ensures Current(st).None? ==> o == Outcome(st, [Fault])
    ensures Current(st).Some? ==> o.state == Store(st, SavePersonal(Current(st).value, f))
  {
    match Current(st)
    case None => Outcome(st, [Fault])
    case Some(u) => Edited(st, SavePersonal(u, f), [Toast("Saved", "Personal info updated")])
  }

  /** The academic-details form submit. */
  function AcademicSubmit(st: State, f: AcademicForm): (o: Outcome)
    ensures Current(st).None? ==> o == Outcome(st, [Fault])
    ensures Current(st).Some? ==> o.state == Store(st, SaveAcademic(Current(st).value, f))
  {
    match Current(st)
    case None => Outcome(st, [Fault])
    case Some(u) => Edited(st, SaveAcademic(u, f), [Toast("Saved", "Academic info updated")])
  }

  /** The preferences form submit. */
  function PreferencesSubmit(st: State, f: PreferencesForm): (o: Outcome)
    ensures Current(st).None? ==> o == Outcome(st, [Fault])
    ensures Current(st).Some? ==> o.state == Store(st, SavePreferences(Current(st).value, f))
  {
    match Current(st)
    case None => Outcome(st, [Fault])
    case Some(u) => Edited(st, SavePreferences(u, f), [Toast("Preferences", "Saved successfully")])
  }

  /** The skill-gap button: shows the missing skills (an empty list is the "all set" message);
      the state does not change. */
  function SkillGapClick(st: State): (o: Outcome)
    ensures o.state == st
    ensures Current(st).None? || Current(st).value.skills.None? ==> o.effects == [Fault]
    ensures Current(st).Some? && Current(st).value.skills.Some? ==>
      |o.effects| == 2 && o.effects[0] == ShowRoadmap(MissingSkills(Current(st).value.skills.value))
  {
    match Current(st)
    case None => Outcome(st, [Fault])
    case Some(u) =>
      match SkillGapOf(u)
      case None => Outcome(st, [Fault])
      case Some(missing) => Outcome(st, [ShowRoadmap(missing), Toast("AI Analysis Ready", "Personalized roadmap generated")])
  }

  // ---------------- Events ----------------

  /** The inputs the page reacts to. */
  datatype Event =
    | LoginSubmit(role: string, username: string, password: string)
    | LogoutClick
    | MenuClick(section: string)
    | BellClick
    | QuickActionClick
    | SkillItemClick(skill: string, checked: bool)
    | CertificationAdd(input: string)
    | PersonalSave(personal: PersonalForm)
    | AcademicSave(academic: AcademicForm)
    | PreferencesSave(preferences: PreferencesForm)
    | SkillGapRun

  /** The listeners `setupEventListeners` wires up. Only login and logout change who is logged in
      or the sidebar, only login and the navigation events change the section, and only the
      profile handlers write the store. */
  function Step(st: State, e: Event): (o: Outcome)
    ensures !e.LoginSubmit? && !e.LogoutClick? ==> o.state.currentUser == st.currentUser && o.state.menu == st.menu
    ensures !e.LoginSubmit? && !e.MenuClick? && !e.BellClick? && !e.QuickActionClick? ==>
      o.state.currentSection == st.currentSection
    ensures e.LoginSubmit? || e.LogoutClick? || e.MenuClick? || e.BellClick? || e.QuickActionClick? || e.SkillGapRun? ==>
      o.state.users == st.users
  {
    match e
    case LoginSubmit(role, username, password) => Login(st, role, username, password)
    case LogoutClick => Logout(st)
    case MenuClick(id) => Navigate(st, id)
    case BellClick => Navigate(st, "notifications")
    case QuickActionClick => QuickAction(st)
    case SkillItemClick(skill, checked) => SkillClick(st, skill, checked)
    case CertificationAdd(input) => AddCertificationClick(st, input)
    case PersonalSave(f) => PersonalSubmit(st, f)
    case AcademicSave(f) => AcademicSubmit(st, f)
    case PreferencesSave(f) => PreferencesSubmit(st, f)
    case SkillGapRun => SkillGapClick(st)
  }

  /** The state after handling `events` in order. */
  function Run(st: State, events: seq<Event>): State
    decreases |events|
  {
    if events == [] then st else Run(Step(st, events[0]).state, events[1..])
  }

  // ---------------- Invariants ----------------

  /** What every reachable state satisfies: the store holds exactly the seed users with their
      roles, every record has a `name`, no skill list holds a name twice, and a logged-in user's
      menu is their role's. */
  ghost predicate Inv(st: State) {
    && st.users.Keys == SeedUsers.Keys
    && (forall k :: k in st.users ==> st.users[k].kind == SeedUsers[k].kind)
    && (forall k :: k in st.users ==> "name" in st.users[k].fields)
    && (forall k :: k in st.users && st.users[k].skills.Some? ==> NoDup(st.users[k].skills.value))
    && (st.currentUser.Some? ==>
          st.currentUser.value in st.users && st.menu == Menu(st.users[st.currentUser.value].kind))
  }

  /** `r` differs from `st` at most in the current user's record, and there neither in the role nor
      in the stored completion percentage. */
  ghost predicate EditsOnlyCurrent(st: State, r: State) {
    && r.users.Keys == st.users.Keys
    && (forall k :: k in st.users && st.currentUser != Some(k) ==> r.users[k] == st.users[k])
    && (forall k :: k in st.users ==> r.users[k].kind == st.users[k].kind)
    && (forall k :: k in st.users ==> r.users[k].profileCompletion == st.users[k].profileCompletion)
  }

  /** A good successor state. */
  ghost predicate GoodStep(st: State, r: State) {
    Inv(r) && EditsOnlyCurrent(st, r)
  }

  /** Every seed record has a name. */
  lemma SeedUsersNamed()
    ensures forall k :: k in SeedUsers ==> "name" in SeedUsers[k].fields
  {
  }

  lemma InitialInv()
    ensures Inv(Initial)
  {
    SeedUsersNamed();
    assert NoDup(StudentSeed.skills.value);
  }

  /** Writing back a record that keeps its role and a duplicate-free skill list keeps the invariant. */
  lemma StorePreservesInv(st: State, u: User)
    requires Inv(st) && Current(st).Some?
    requires u.kind == Current(st).value.kind
    requires "name" in u.fields
    requires u.skills.Some? ==> NoDup(u.skills.value)
    requires u.profileCompletion == Current(st).value.profileCompletion
    ensures GoodStep(st, Store(st, u))
  {
    var r := Store(st, u);
    var cu := st.currentUser.value;
    forall k | k in r.users
      ensures r.users[k].kind == SeedUsers[k].kind
      ensures "name" in r.users[k].fields
      ensures r.users[k].skills.Some? ==> NoDup(r.users[k].skills.value)
    {
      if k != cu {
        assert r.users[k] == st.users[k];
      }
    }
  }

  /** A login makes current a stored user and renders that user's role menu. */
  lemma LoginPreservesInv(st: State, role: string, username: string, password: string)
    requires Inv(st)
    ensures GoodStep(st, Login(st, role, username, password).state)
  {
  }

  /** Logout, navigation, the quick action and the skill-gap run never touch the store. */
  lemma LogoutPreservesInv(st: State)
    requires Inv(st)
    ensures GoodStep(st, Logout(st).state)
  {
  }

  lemma NavigatePreservesInv(st: State, id: string)
    requires Inv(st)
    ensures GoodStep(st, Navigate(st, id).state)
  {
    assert Navigate(st, id).state == st.(currentSection := id);
  }

  lemma QuickActionPreservesInv(st: State)
    requires Inv(st)
    ensures GoodStep(st, QuickAction(st).state)
  {
    var r := QuickAction(st).state;
    assert r.users == st.users && r.currentUser == st.currentUser && r.menu == st.menu;
  }

  lemma SkillGapPreservesInv(st: State)
    requires Inv(st)
    ensures GoodStep(st, SkillGapClick(st).state)
  {
    assert SkillGapClick(st).state == st;
  }

  lemma SkillClickPreservesInv(st: State, skill: string, checked: bool)
    requires Inv(st)
    ensures GoodStep(st, SkillClick(st, skill, checked).state)
  {
    var u := Current(st);
    if u.Some? && u.value.skills.Some? {
      StorePreservesInv(st, u.value.(skills := Some(SelectSkill(u.value.skills.value, skill, checked))));
    }
  }

  lemma CertificationAddPreservesInv(st: State, input: string)
    requires Inv(st)
    ensures GoodStep(st, AddCertificationClick(st, input).state)
  {
    var u := Current(st);
    if !AllSpace(input) && u.Some? && u.value.certifications.Some? {
      StorePreservesInv(st, u.value.(certifications := Some(AddCertification(u.value.certifications.value, input))));
    }
  }

  lemma PersonalSubmitPreservesInv(st: State, f: PersonalForm)
    requires Inv(st)
    ensures GoodStep(st, PersonalSubmit(st, f).state)
  {
    if Current(st).Some? {
      StorePreservesInv(st, SavePersonal(Current(st).value, f));
    }
  }

  lemma AcademicSubmitPreservesInv(st: State, f: AcademicForm)
    requires Inv(st)
    ensures GoodStep(st, AcademicSubmit(st, f).state)
  {
    if Current(st).Some? {
      StorePreservesInv(st, SaveAcademic(Current(st).value, f));
    }
  }

  lemma PreferencesSubmitPreservesInv(st: State, f: PreferencesForm)
    requires Inv(st)
    ensures GoodStep(st, PreferencesSubmit(st, f).state)
  {
    if Current(st).Some? {
      StorePreservesInv(st, SavePreferences(Current(st).value, f));
    }
  }

  /** The session events (login, logout, navigation, the quick action, the skill-gap run) keep
      the invariant. */
  lemma SessionEventPreservesInv(st: State, e: Event)
    requires Inv(st)
    requires !(e.SkillItemClick? || e.CertificationAdd? || e.PersonalSave? || e.AcademicSave? || e.PreferencesSave?)
    ensures GoodStep(st, Step(st, e).state)
  {
    match e
    case LoginSubmit(role, username, password) =>
      assert Step(st, e) == Login(st, role, username, password);
      LoginPreservesInv(st, role, username, password);
    case LogoutClick =>
      assert Step(st, e) == Logout(st);
      LogoutPreservesInv(st);
    case MenuClick(id) =>
      assert Step(st, e) == Navigate(st, id);
      NavigatePreservesInv(st, id);
    case BellClick =>
      assert Step(st, e) == Navigate(st, "notifications");
      NavigatePreservesInv(st, "notifications");
    case QuickActionClick =>
      assert Step(st, e) == QuickAction(st);
      QuickActionPreservesInv(st);
    case SkillGapRun =>
      assert Step(st, e) == SkillGapClick(st);
      SkillGapPreservesInv(st);
  }

  /** The profile-editing events keep the invariant. */
  lemma EditEventPreservesInv(st: State, e: Event)
    requires Inv(st)
    requires e.SkillItemClick? || e.CertificationAdd? || e.PersonalSave? || e.AcademicSave? || e.PreferencesSave?
    ensures GoodStep(st, Step(st, e).state)
  {
    match e
    case SkillItemClick(skill, checked) =>
      assert Step(st, e) == SkillClick(st, skill, checked);
      SkillClickPreservesInv(st, skill, checked);
    case CertificationAdd(input) =>
      assert Step(st, e) == AddCertificationClick(st, input);
      CertificationAddPreservesInv(st, input);
    case PersonalSave(f) =>
      assert Step(st, e) == PersonalSubmit(st, f);
      PersonalSubmitPreservesInv(st, f);
    case AcademicSave(f) =>
      assert Step(st, e) == AcademicSubmit(st, f);
      AcademicSubmitPreservesInv(st, f);
    case PreferencesSave(f) =>
      assert Step(st, e) == PreferencesSubmit(st, f);
      PreferencesSubmitPreservesInv(st, f);
  }

  /** Every handler keeps the invariant, and changes at most the current user's record. */
  lemma StepPreservesInv(st: State, e: Event)
    requires Inv(st)
    ensures GoodStep(st, Step(st, e).state)
  {
    if e.SkillItemClick? || e.CertificationAdd? || e.PersonalSave? || e.AcademicSave? || e.PreferencesSave? {
      EditEventPreservesInv(st, e);
    } else {
      SessionEventPreservesInv(st, e);
    }
  }

  /** Every sequence of events from a good state ends in a good state. */
  lemma {:induction false} RunPreservesInv(st: State, events: seq<Event>)
    requires Inv(st)
    ensures Inv(Run(st, events))
    decreases |events|
  {
    if events != [] {
      StepPreservesInv(st, events[0]);
      RunPreservesInv(Step(st, events[0]).state, events[1..]);
    }
  }

  // ---------------- Properties of the session ----------------

  /** Logging out twice is logging out once. */
  lemma LogoutIdempotent(st: State)
    ensures Logout(Logout(st).state).state == Logout(st).state
  {
  }

  /** Edits survive a logout and a new login: the store is untouched by both, and the new session's
      current record is the stored, edited one. The dashboard opens when that record has a name. */
  lemma EditsSurviveRelogin(st: State, role: string, username: string, password: string)
    requires CredentialsMatch(username, password)
    requires RoleMatches(st, username, role)
    ensures var back := Login(Logout(st).state, role, username, password).state;
      && back.users == st.users
      && Current(back) == Some(st.users[Trim(username)])
      && ("name" in st.users[Trim(username)].fields ==> back.currentSection == "dashboard")
  {
  }

  /** The navigations the page itself issues (the bell, the quick action) never leave the logged-in
      user's menu, so the missing membership check is never exercised by them. */
  lemma PageNavigationStaysInMenu(st: State)
    requires Inv(st) && st.currentUser.Some?
    ensures Navigate(st, "notifications").state.currentSection in Ids(st.menu)
    ensures var r := QuickAction(st).state;
      r.currentSection == st.currentSection || r.currentSection in Ids(st.menu)
  {
    var kind := st.users[st.currentUser.value].kind;
    var ids := Ids(Menu(kind));
    assert ids[1] == "notifications";
    match kind
    case Student => assert ids[3] == "jobs";
    case Faculty => assert ids[2] == "analytics";
    case Staff => assert ids[3] == "analytics";
    case Admin => assert ids[2] == "analytics";
    case Company =>
  }

  /** White space typed around the username never changes the outcome of a login. */
  lemma UsernamePaddingIgnored(st: State, role: string, username: string, password: string, a: string, b: string)
    requires AllSpace(a) && AllSpace(b)
    ensures Login(st, role, a + username + b, password) == Login(st, role, username, password)
  {
    TrimIgnoresPadding(a, username, b);
  }

  /** The password is compared as typed: a password that logs in stops doing so with a space added
      at either end, and the state is left alone. */
  lemma PasswordPaddingRejected(st: State, role: string, username: string, password: string)
    requires CredentialsMatch(username, password)
    ensures Login(st, role, username, " " + password) == Outcome(st, [Toast("Error", "Invalid credentials")])
    ensures Login(st, role, username, password + " ") == Outcome(st, [Toast("Error", "Invalid credentials")])
  {
    assert |" " + password| != |password| && |password + " "| != |password|;
  }

  /** In a good state the demo student and faculty records keep their seed roles. */
  lemma SeedStudent(st: State)
    requires Inv(st)
    ensures "student@college.edu" in st.users && st.users["student@college.edu"].kind == Student
  {
  }

  lemma SeedFaculty(st: State)
    requires Inv(st)
    ensures "faculty@college.edu" in st.users && st.users["faculty@college.edu"].kind == Faculty
  {
  }

  /** The student signs in with the demo password from any good state (the initial one, or one
      reached by earlier sessions), whatever white space surrounds the address typed: the
      student becomes current, on the dashboard, with the eight student sections in the menu. */
  lemma StudentLoginScenario(st: State, username: string)
    requires Inv(st) && Trim(username) == "student@college.edu"
    ensures var o := Login(st, "student", username, "student123");
      && o.state.currentUser == Some("student@college.edu")
      && o.state.currentSection == "dashboard"
      && Ids(o.state.menu) == ["dashboard", "notifications", "profile", "jobs",
                               "applications", "interviews", "mentorship", "chatbot"]
  {
    SeedStudent(st);
    assert CredentialsMatch(username, "student123");
    assert RoleMatches(st, username, "student");
    var o := Login(st, "student", username, "student123");
    assert o.state.menu == Menu(Student);
    StudentMenuIds();
  }

  /** A wrong password is rejected as invalid credentials, whatever the state, and nothing changes. */
  lemma WrongPasswordScenario(st: State, username: string)
    requires Trim(username) == "staff@college.edu"
    ensures Login(st, "staff", username, "wrongpass") == Outcome(st, [Toast("Error", "Invalid credentials")])
  {
    assert !CredentialsMatch(username, "wrongpass");
  }

  /** Correct credentials with the wrong role selected are rejected as a role mismatch. */
  lemma WrongRoleScenario(st: State, username: string)
    requires Inv(st) && Trim(username) == "faculty@college.edu"
    ensures Login(st, "admin", username, "faculty123") == Outcome(st, [Toast("Error", "Role mismatch")])
  {
    SeedFaculty(st);
    assert CredentialsMatch(username, "faculty123");
    assert !RoleMatches(st, username, "admin");
  }

  /** The sections a student's menu offers do not include the admin's settings. */
  lemma SettingsNotInStudentMenu()
    ensures "settings" !in Ids(Menu(Student))
  {
    StudentMenuIds();
  }

  /** The router does not check the menu: a logged-in student who is sent to the admin-only
      settings section gets there, with the breadcrumb's fallback text. */
  lemma StudentReachesSettings(st: State)
    requires Inv(st) && Current(st).Some? && Current(st).value.kind == Student
    ensures "settings" !in Ids(st.menu)
    ensures Navigate(st, "settings").state.currentSection == "settings"
    ensures Navigate(st, "settings").effects[0].breadcrumb == "Dashboard"
  {
    SettingsNotInStudentMenu();
  }
}
