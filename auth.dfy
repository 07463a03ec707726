/** The login and sign-up decisions of components/Auth.tsx. The stored user
    list and the current user are fields of the screen; the generated id and
    the clock of a new account are parameters. */
module Auth {
  import opened Types
  import opened Utils

  const InvalidLogin := "Invalid username/email or password"
  const InvalidEmail := "Please enter a valid email address"
  const ShortPassword := "Password must be at least 6 characters"
  const ShortUsername := "Username must be at least 3 characters"
  const AlreadyExists := "Username or email already exists"

  /** A login name matches a user by username or by email. */
  predicate LoginMatches(u: User, login: string, password: string)
  {
    (u.username == login || u.email == login) && u.password == password
  }

  /** The first user the login matches, if any. */
  function FindLogin(users: seq<User>, login: string, password: string): (r: Option<nat>)
    ensures r.Some? ==> r.value < |users| && LoginMatches(users[r.value], login, password)
    ensures r.Some? ==> forall j :: 0 <= j < r.value ==> !LoginMatches(users[j], login, password)
    ensures r.None? <==> forall j :: 0 <= j < |users| ==> !LoginMatches(users[j], login, password)
  {
    if users == [] then None
    else if LoginMatches(users[0], login, password) then Some(0)
    else match FindLogin(users[1..], login, password)
      case None => None
      case Some(k) => Some(k + 1)
  }

  /** A stored user already has the username or the email. */
  predicate Clashes(users: seq<User>, username: string, email: string)
  {
    exists u :: u in users && (u.username == username || u.email == email)
  }

  /** The sign-up checks in order; the message of the first that fails. */
  function SignUpError(users: seq<User>, username: string, email: string, password: string): (r: Option<string>)
    ensures r.None? <==>
      ValidateEmail(email) && ValidatePassword(password) && |username| >= 3 && !Clashes(users, username, email)
    ensures r == Some(InvalidEmail) <==> !ValidateEmail(email)
    ensures r == Some(ShortPassword) <==> ValidateEmail(email) && |password| < 6
    ensures r == Some(ShortUsername) <==> ValidateEmail(email) && |password| >= 6 && |username| < 3
    ensures r == Some(AlreadyExists) <==>
      ValidateEmail(email) && |password| >= 6 && |username| >= 3 && Clashes(users, username, email)
  {
    if !ValidateEmail(email) then Some(InvalidEmail)
    else if !ValidatePassword(password) then Some(ShortPassword)
    else if |username| < 3 then Some(ShortUsername)
    else if Clashes(users, username, email) then Some(AlreadyExists)
    else None
  }

  /** Usernames are pairwise distinct and so are emails. */
  predicate DistinctAccounts(users: seq<User>)
  {
    forall i, j :: 0 <= i < j < |users| ==> users[i].username != users[j].username && users[i].email != users[j].email
  }

  class AuthScreen {
    var users: seq<User>
    var currentUser: Option<User>
    var error: string

    constructor (stored: seq<User>)
      ensures users == stored && currentUser == None && error == ""
    {
      users := stored;
      currentUser := None;
      error := "";
    }

    /** Submitting the form in login mode (isLogin) or sign-up mode. */
    method HandleSubmit(isLogin: bool, username: string, email: string, password: string, newId: string, now: string)
      modifies this
      ensures isLogin ==> users == old(users)
      ensures isLogin ==>
        match FindLogin(old(users), username, password)
          case Some(i) => currentUser == Some(old(users)[i]) && error == ""
          case None => currentUser == old(currentUser) && error == InvalidLogin
      ensures !isLogin ==>
        match SignUpError(old(users), username, email, password)
          case Some(e) => users == old(users) && currentUser == old(currentUser) && error == e
          case None =>
            var u := User(newId, username, email, password, now);
            users == old(users) + [u] && currentUser == Some(u) && error == ""
    {
      error := "";
      if isLogin {
        var found := FindLogin(users, username, password);
        if found.Some? {
          currentUser := Some(users[found.value]);
        } else {
          error := InvalidLogin;
        }
      } else {
        if !ValidateEmail(email) {
          error := InvalidEmail;
          return;
        }
        if !ValidatePassword(password) {
          error := ShortPassword;
          return;
        }
        if |username| < 3 {
          error := ShortUsername;
          return;
        }
        if Clashes(users, username, email) {
          error := AlreadyExists;
          return;
        }
        var newUser := User(newId, username, email, password, now);
        users := users + [newUser];
        currentUser := Some(newUser);
      }
    }
  }

  // ---- What the rules guarantee ----

  /** An accepted sign-up keeps usernames and emails distinct. */
  lemma SignUpKeepsAccountsDistinct(users: seq<User>, username: string, email: string, password: string, newId: string, now: string)
    requires DistinctAccounts(users)
    requires SignUpError(users, username, email, password).None?
    ensures DistinctAccounts(users + [User(newId, username, email, password, now)])
  {
    var r := users + [User(newId, username, email, password, now)];
    forall i, j | 0 <= i < j < |r| ensures r[i].username != r[j].username && r[i].email != r[j].email {
      if j == |users| {
        assert r[i] in users;
      }
    }
  }

  /** A sign-up whose username or email is taken is refused. */
  lemma ClashRefused(users: seq<User>, username: string, email: string, password: string, k: nat)
    requires k < |users| && (users[k].username == username || users[k].email == email)
    ensures SignUpError(users, username, email, password).Some?
  {
    assert users[k] in users;
  }

  /** Right after an accepted sign-up, the new credentials log in, to the
      new account unless an earlier account has the new username as its
      email and the same password. */
  lemma LoginAfterSignUp(users: seq<User>, username: string, email: string, password: string, newId: string, now: string)
    requires SignUpError(users, username, email, password).None?
    ensures var u := User(newId, username, email, password, now);
      var found := FindLogin(users + [u], username, password);
      && found.Some?
      && ((users + [u])[found.value] == u || (found.value < |users| && users[found.value].email == username))
  {
    var u := User(newId, username, email, password, now);
    var r := users + [u];
    assert LoginMatches(r[|users|], username, password);
    var found := FindLogin(r, username, password);
    if found.value < |users| {
      assert r[found.value] in users;
    }
  }
}
