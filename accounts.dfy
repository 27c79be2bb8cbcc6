/** The in-memory user table and the login session of main_program.py. */
module Accounts {
  import opened Wrappers

  datatype User = User(password: string, email: string)

  /** What a submitted login form leads to (the flash message and redirect). */
  datatype LoginOutcome = AlreadyLoggedIn | LoggedIn | InvalidCredentials

  /** The user exists and `password` is the one stored for them. */
  predicate Authenticates(usersDb: map<string, User>, username: string, password: string) {
    username in usersDb && usersDb[username].password == password
  }

  /** A new account can log in with its password; every other account keeps
      its credentials. */
  lemma NewAccountAuthenticates(usersDb: map<string, User>, username: string, password: string, email: string)
    requires username !in usersDb
    ensures Authenticates(usersDb[username := User(password, email)], username, password)
    ensures forall other, p :: other != username ==>
      (Authenticates(usersDb[username := User(password, email)], other, p) <==> Authenticates(usersDb, other, p))
  {
  }

  /** The Flask application's user table (`users_db`) and one visitor's session. */
  class Site {
    var usersDb: map<string, User>
    /** `session['username']`, when set. */
    var sessionUser: Option<string>
    /** `session.permanent`. */
    var sessionPermanent: bool

    constructor ()
      ensures usersDb == map["Bob7Bobby" := User("HelloWorld123!", "bob7bobby@example.com")]
      ensures sessionUser == None && !sessionPermanent
    {
      usersDb := map["Bob7Bobby" := User("HelloWorld123!", "bob7bobby@example.com")];
      sessionUser := None;
      sessionPermanent := false;
    }

    /** The POST branch of `create_account`. */
    method CreateAccount(username: string, password: string, email: string) returns (created: bool)
      modifies this
      ensures created <==> username !in old(usersDb)
      ensures usersDb == if created then old(usersDb)[username := User(password, email)] else old(usersDb)
      ensures sessionUser == old(sessionUser) && sessionPermanent == old(sessionPermanent)
    {
      if username in usersDb {
        return false;
      }
      usersDb := usersDb[username := User(password, email)];
      return true;
    }

    /** `login`: a visitor already logged in is sent on; otherwise the form
        is checked against the user table. */
    method Login(username: string, password: string) returns (outcome: LoginOutcome)
      modifies this
      ensures usersDb == old(usersDb)
      ensures outcome == if old(sessionUser).Some? then AlreadyLoggedIn
                         else if Authenticates(old(usersDb), username, password) then LoggedIn
                         else InvalidCredentials
      ensures outcome == LoggedIn ==> sessionUser == Some(username) && sessionPermanent
      ensures outcome != LoggedIn ==>
        sessionUser == old(sessionUser) && sessionPermanent == old(sessionPermanent)
    {
      if sessionUser.Some? {
        return AlreadyLoggedIn;
      }
      if username in usersDb && usersDb[username].password == password {
        sessionUser := Some(username);
        sessionPermanent := true;
        return LoggedIn;
      }
      return InvalidCredentials;
    }

    /** `logout`: drops the user from the session, whether or not one was there. */
    method Logout()
      modifies this
      ensures sessionUser == None
      ensures usersDb == old(usersDb) && sessionPermanent == old(sessionPermanent)
    {
      sessionUser := None;
    }
  }

  /** Creating an account and then logging in with it succeeds, and a second
      attempt to create the same user name is refused without touching the
      table. */
  method CreateThenLogin(username: string, password: string, email: string) returns (created: bool, again: bool, outcome: LoginOutcome)
    requires username != "Bob7Bobby"
    ensures created && !again && outcome == LoggedIn
  {
    var site := new Site();
    created := site.CreateAccount(username, password, email);
    again := site.CreateAccount(username, "other", "other@example.com");
    assert Authenticates(site.usersDb, username, password);
    outcome := site.Login(username, password);
  }
}
