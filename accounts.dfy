/** The decision chain of the `signup` view. */
module Accounts {
  import opened Models
  import opened Text

  /** What a signup request ends in. `SignedUp` carries the account to create. */
  datatype SignupOutcome =
    | AlreadySignedIn   // the session is logged in: redirect home
    | ShowForm          // not a POST: render the empty form
    | FieldsMissing     // "Please fill all the fields."
    | UsernameExists    // "Username already exists."
    | EmailExists       // "Email already exists."
    | SignedUp(user: User)

  predicate UsernameTaken(users: set<User>, username: string) {
    exists u | u in users :: u.username == username
  }

  predicate EmailTaken(users: set<User>, email: string) {
    exists u | u in users :: u.email == email
  }

  /** The `signup` view's checks, in its order. Only the email is stripped;
      the username and the password are tested as posted. */
  function SignupDecision(authenticated: bool, isPost: bool, email: string, password: string,
                          username: string, users: set<User>): (r: SignupOutcome)
    ensures authenticated ==> r == AlreadySignedIn
    ensures r.SignedUp? ==>
      && r.user.username == username && r.user.email == Strip(email)
      && !UsernameTaken(users, username) && !EmailTaken(users, r.user.email)
      && r.user !in users
  {
    if authenticated then AlreadySignedIn
    else if !isPost then ShowForm
    else
      var stripped := Strip(email);
      if stripped == [] || password == [] || username == [] then FieldsMissing
      else if UsernameTaken(users, username) then UsernameExists
      else if EmailTaken(users, stripped) then EmailExists
      else SignedUp(User(username, stripped))
  }

  /** The accounts after a request: one more on `SignedUp`, the same otherwise. */
  function UsersAfter(users: set<User>, outcome: SignupOutcome): set<User> {
    if outcome.SignedUp? then users + {outcome.user} else users
  }

  /** Precedence of the checks on a POST from a visitor: an empty field wins
      over a taken username, which wins over a taken email. */
  lemma SignupChecksInOrder(email: string, password: string, username: string, users: set<User>)
    ensures var r := SignupDecision(false, true, email, password, username, users);
      var filled := Strip(email) != [] && password != [] && username != [];
      && (!filled ==> r == FieldsMissing)
      && (filled && UsernameTaken(users, username) ==> r == UsernameExists)
      && (filled && !UsernameTaken(users, username) && EmailTaken(users, Strip(email)) ==> r == EmailExists)
  {
  }

  /** An account is created exactly when every check passes; it carries the
      posted username and the stripped email, is new, and every failure
      leaves the accounts as they were. */
  lemma SignupCreatesOnlyWhenAllPass(authenticated: bool, isPost: bool, email: string, password: string,
                                     username: string, users: set<User>)
    ensures var r := SignupDecision(authenticated, isPost, email, password, username, users);
      && (r.SignedUp? <==>
            !authenticated && isPost && Strip(email) != [] && password != [] && username != []
            && !UsernameTaken(users, username) && !EmailTaken(users, Strip(email)))
      && (r.SignedUp? ==> r.user == User(username, Strip(email)) && r.user !in users
                          && |UsersAfter(users, r)| == |users| + 1)
      && (!r.SignedUp? ==> UsersAfter(users, r) == users)
  {
  }

  /** No two accounts share a username or an email. */
  predicate UniqueAccounts(users: set<User>) {
    forall u, v :: u in users && v in users && u != v ==> u.username != v.username && u.email != v.email
  }

  /** Signup keeps usernames and emails unique, and never stores an email
      that is blank or has surrounding whitespace. */
  lemma SignupKeepsAccountsUnique(authenticated: bool, isPost: bool, email: string, password: string,
                                  username: string, users: set<User>)
    requires UniqueAccounts(users)
    ensures var r := SignupDecision(authenticated, isPost, email, password, username, users);
      && UniqueAccounts(UsersAfter(users, r))
      && (r.SignedUp? ==> r.user.email != [] && !IsWhitespace(r.user.email[0])
                          && !IsWhitespace(r.user.email[|r.user.email| - 1]))
  {
    var r := SignupDecision(authenticated, isPost, email, password, username, users);
    if r.SignedUp? {
      var n := r.user;
      forall u, v | u in users + {n} && v in users + {n} && u != v
        ensures u.username != v.username && u.email != v.email
      {
        if u == n {
          assert v in users;
        } else if v == n {
          assert u in users;
        }
      }
    }
  }
}
