/**
 The sign-in page: the click handler of the submit button (validation, log
 in, sign up) and the log-in / sign-up mode switch, as transitions on the
 page's state.
 */
module Auth {
  import opened Records
  import opened Text

  /** What a click on the submit button ends in. */
  datatype Outcome =
    | MissingFields       // "Please fill all fields"
    | LoggedIn            // the dashboard opens for the user
    | InvalidCredentials  // "Invalid credentials"
    | UserExists          // "User already exists"
    | AccountCreated      // "Account created. You can log in now.", erased at once by
                          // the switch back to log-in mode, so never seen

  /** The state the sign-in page works on: the stored users, the signed-in
      user (none before a log in) and whether the form is in log-in mode. */
  datatype Session = Session(users: map<string, Account>, current: Option<string>, isLogin: bool)

  /** The required fields are all non-empty; the display name is required
      only when signing up. */
  predicate Filled(username: string, password: string, name: string, isLogin: bool) {
    username != "" && password != "" && (isLogin || name != "")
  }

  /** The store has `username` and its password is exactly `password`. */
  predicate Matches(users: map<string, Account>, username: string, password: string) {
    username in users && users[username].password == password
  }

  /** `toggleLogin`: flip between log-in and sign-up mode. */
  function Toggle(s: Session): (r: Session)
    ensures r.isLogin == !s.isLogin
    ensures r.users == s.users && r.current == s.current
  {
    s.(isLogin := !s.isLogin)
  }

  /** A click on the submit button with the raw contents of the user name,
      password and display name fields. The user name and display name are
      trimmed; the password is taken as typed. */
  function Submit(s: Session, rawUser: string, password: string, rawName: string): (r: (Outcome, Session))
    // a missing field is reported before anything else, and changes nothing
    ensures r.0 == MissingFields <==> !Filled(Trim(rawUser), password, Trim(rawName), s.isLogin)
    ensures r.0 in {MissingFields, InvalidCredentials, UserExists} ==> r.1 == s
    // log-in mode only logs in or fails; sign-up mode only creates or fails
    ensures s.isLogin ==> r.0 in {MissingFields, LoggedIn, InvalidCredentials}
    ensures !s.isLogin ==> r.0 in {MissingFields, UserExists, AccountCreated}
    // a log in succeeds exactly for a stored user with that exact password
    ensures r.0 == LoggedIn <==>
      s.isLogin && Trim(rawUser) != "" && password != "" && Matches(s.users, Trim(rawUser), password)
    ensures r.0 == LoggedIn ==> r.1 == s.(current := Some(Trim(rawUser)))
    // a sign-up fails exactly for a name already taken
    ensures r.0 == UserExists <==>
      !s.isLogin && Filled(Trim(rawUser), password, Trim(rawName), false) && Trim(rawUser) in s.users
    // a sign-up adds one account, leaves the others alone and returns to log-in mode
    ensures r.0 == AccountCreated ==>
      && Trim(rawUser) !in s.users
      && r.1.users.Keys == s.users.Keys + {Trim(rawUser)}
      && r.1.users[Trim(rawUser)] == NewAccount(password, Trim(rawName))
      && (forall u :: u in s.users ==> r.1.users[u] == s.users[u])
      && r.1.current == s.current && r.1.isLogin
  {
    var username, name := Trim(rawUser), Trim(rawName);
    if !Filled(username, password, name, s.isLogin) then (MissingFields, s)
    else if s.isLogin then
      if Matches(s.users, username, password) then (LoggedIn, s.(current := Some(username)))
      else (InvalidCredentials, s)
    else if username in s.users then (UserExists, s)
    else (AccountCreated, Toggle(s.(users := s.users[username := NewAccount(password, name)])))
  }

  /** After a successful sign-up with a user name and password, logging in
      with the same user name (however it is padded) succeeds with exactly
      that password and fails with any other non-empty one. */
  lemma SignUpThenLogin(s: Session, rawUser: string, password: string, rawName: string,
                        rawUser': string, password': string, rawName': string)
    requires !s.isLogin
    requires Filled(Trim(rawUser), password, Trim(rawName), false)
    requires Trim(rawUser) !in s.users
    requires Trim(rawUser') == Trim(rawUser)
    ensures Submit(s, rawUser, password, rawName).0 == AccountCreated
    ensures var after := Submit(s, rawUser, password, rawName).1;
      Submit(after, rawUser', password', rawName').0 ==
        if password' == "" then MissingFields
        else if password' == password then LoggedIn
        else InvalidCredentials
  {
  }

  /** What a user can do on the sign-in page. */
  datatype Action =
    | ToggleMode
    | Attempt(rawUser: string, password: string, rawName: string)

  /** The state after a sequence of actions, in order. */
  function Run(s: Session, actions: seq<Action>): Session
    decreases |actions|
  {
    if actions == [] then s
    else
      var s' := match actions[0]
        case ToggleMode => Toggle(s)
        case Attempt(u, p, n) => Submit(s, u, p, n).1;
      Run(s', actions[1..])
  }

  /** The signed-in user, if any, names a stored account. */
  predicate CurrentResolves(s: Session) {
    s.current.Some? ==> s.current.value in s.users
  }

  /** Whatever happens on the sign-in page, no stored account is removed or
      altered, and a signed-in user always names a stored account. */
  lemma {:induction false} RunKeepsAccounts(s: Session, actions: seq<Action>)
    requires CurrentResolves(s)
    ensures var t := Run(s, actions);
      && s.users.Keys <= t.users.Keys
      && (forall u :: u in s.users ==> t.users[u] == s.users[u])
      && CurrentResolves(t)
    decreases |actions|
  {
    if actions != [] {
      var s' := match actions[0]
        case ToggleMode => Toggle(s)
        case Attempt(u, p, n) => Submit(s, u, p, n).1;
      RunKeepsAccounts(s', actions[1..]);
    }
  }
}
