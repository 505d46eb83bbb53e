/** The login and registration pages: how a login attempt is reported, and
    how a registration request is checked and stored. */
module Auth {
  import opened Types
  import opened Seqs
  import opened Db

  /** What the login page does with an attempt: go to the dashboard, or stay
      and show a message. */
  datatype LoginView = GoToDashboard | ShowError(message: string)

  const InvalidCredentialsMessage: string := "Invalid credentials"

  /** The login form handler. */
  function HandleLogin(s: Store, username: string, password: string): (r: (LoginView, Store))
    ensures r.0 == ShowError(InvalidCredentialsMessage) <==>
              forall i :: 0 <= i < |GetUsers(s)| ==> !Matches(GetUsers(s)[i], username, password)
    ensures r.0 == ShowError(NotActiveMessage) <==>
              exists i :: FirstMatchAt(GetUsers(s), username, password, i) &&
                          GetUsers(s)[i].status != Active
    ensures r.0.GoToDashboard? <==>
              exists i :: FirstMatchAt(GetUsers(s), username, password, i) &&
                          GetUsers(s)[i].status == Active
    ensures r.0.GoToDashboard? ==>
              exists i :: FirstMatchAt(GetUsers(s), username, password, i) &&
                          r.1 == s.(currentUser := Some(GetUsers(s)[i]))
    ensures r.0.ShowError? ==> r.1 == s
  {
    var (outcome, s') := Login(s, username, password);
    match outcome
    case LoggedIn(_) => (GoToDashboard, s')
    case NoMatch => (ShowError(InvalidCredentialsMessage), s')
    case NotActive(message) => (ShowError(message), s')
  }

  /** The registration form's fields. */
  datatype RegisterForm = RegisterForm(
    username: string, password: string, fullName: string, role: UserRole)

  /** The form as first shown: every text field empty, role STUDENT. */
  const InitialForm: RegisterForm := RegisterForm("", "", "", Student)

  /** The roles the form's selector offers. */
  const OfferedRoles: seq<UserRole> := [Student, Mentor]

  /** A form the page can produce: its role is one the selector offers. */
  predicate FormFromPage(form: RegisterForm) {
    form.role in OfferedRoles
  }

  datatype RegisterOutcome = UsernameTaken | Registered(user: User)

  const TakenMessage: string := "Username already exists."
  const RegisteredMessage: string := "Registration successful! Waiting for admin approval."

  function RegisterMessage(o: RegisterOutcome): string {
    match o
    case UsernameTaken => TakenMessage
    case Registered(_) => RegisteredMessage
  }

  /** Some stored user already has this exact username. */
  predicate NameInUse(users: seq<User>, username: string) {
    exists i :: 0 <= i < |users| && users[i].username == username
  }

  /** The registration handler: a taken username saves nothing; otherwise a
      PENDING account is saved under `newId`. */
  function Register(s: Store, form: RegisterForm, newId: Id): (r: (RegisterOutcome, Store))
    ensures r.0.UsernameTaken? <==> NameInUse(GetUsers(s), form.username)
    ensures r.0.UsernameTaken? ==> r.1 == s
    ensures RegisterMessage(r.0) == TakenMessage <==> NameInUse(GetUsers(s), form.username)
    ensures r.0.Registered? ==>
              var u := r.0.user;
              u.id == newId && u.username == form.username &&
              u.password == Some(form.password) && u.fullName == form.fullName &&
              u.role == form.role && u.status == Pending && u.mentorId.None?
    ensures r.0.Registered? ==>
              r.1.courses == s.courses && r.1.submissions == s.submissions &&
              r.1.currentUser == s.currentUser
    ensures r.0.Registered? && !HasKey(GetUsers(s), UserId, newId) ==>
              GetUsers(r.1) == GetUsers(s) + [r.0.user]
    ensures r.0.Registered? && FormFromPage(form) ==> r.0.user.role != Admin
  {
    var users := GetUsers(s);
    if exists u :: u in users && u.username == form.username then
      (UsernameTaken, s)
    else
      var u := User(newId, form.username, Some(form.password), form.fullName,
                    form.role, Pending, None);
      (Registered(u), SaveUser(s, u))
  }

  /** The form as first shown is one the page can submit, and registers a
      STUDENT. */
  lemma InitialFormRegistersStudent(s: Store, newId: Id)
    ensures FormFromPage(InitialForm)
    ensures Register(s, InitialForm, newId).0.Registered? ==>
              Register(s, InitialForm, newId).0.user.role == Student
  {
  }

  /** Usernames are pairwise distinct. */
  predicate UsernamesDistinct(users: seq<User>) {
    forall i, j :: 0 <= i < j < |users| ==> users[i].username != users[j].username
  }

  /** Registration keeps usernames distinct, whether or not `newId` is fresh. */
  lemma RegisterKeepsUsernamesDistinct(s: Store, form: RegisterForm, newId: Id)
    requires UsernamesDistinct(GetUsers(s))
    ensures UsernamesDistinct(GetUsers(Register(s, form, newId).1))
  {
  }

  /** Where a successful registration put the new account: the only user
      with its username. */
  lemma RegisteredIsOnlyHolder(s: Store, form: RegisterForm, newId: Id)
    requires Register(s, form, newId).0.Registered?
    ensures var users' := GetUsers(Register(s, form, newId).1);
            exists k :: 0 <= k < |users'| && users'[k] == Register(s, form, newId).0.user &&
                        forall j :: 0 <= j < |users'| && j != k ==> users'[j].username != form.username
  {
    var (o, s') := Register(s, form, newId);
    var users, users' := GetUsers(s), GetUsers(s');
    var u := o.user;
    assert forall k :: 0 <= k < |users| ==> users[k].username != u.username;
    if HasKey(users, UserId, newId) {
      FirstWithKeyExists(users, UserId, newId);
      var i :| FirstWithKey(users, UserId, newId, i);
      assert users' == users[i := u];
      assert users'[i] == u;
    } else {
      assert users' == users + [u];
      assert users'[|users|] == u;
    }
  }

  /** A freshly registered account cannot log in: its credentials match it
      first, and it is PENDING. */
  lemma RegistrantIsNotActive(s: Store, form: RegisterForm, newId: Id)
    requires Register(s, form, newId).0.Registered?
    ensures Login(Register(s, form, newId).1, form.username, form.password).0 ==
            NotActive(NotActiveMessage)
  {
    var (o, s') := Register(s, form, newId);
    var users' := GetUsers(s');
    RegisteredIsOnlyHolder(s, form, newId);
    var k :| 0 <= k < |users'| && users'[k] == o.user &&
             forall j :: 0 <= j < |users'| && j != k ==> users'[j].username != form.username;
    assert FirstMatchAt(users', form.username, form.password, k);
  }
}
