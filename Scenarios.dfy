/**
 * Request sequences against a fresh database, proved from the handlers'
 * contracts alone: a client that signs up and logs in, comes back after the
 * session window, and a user who tries to delete another user's post.
 */
module Scenarios {
  import opened Wrappers
  import opened Models
  import opened Escaping
  import opened Credentials
  import opened Sessions
  import opened App

  /**
   * Signing up with a new, already-safe name and password and then logging
   * in stores exactly one user and one session, and the cookie carries the
   * new token.
   */
  method SignUpAndLogIn(f: Forum, now: int, name: string, password: string) returns (token: Token)
    requires f.Valid() && f.Active(now).None?
    requires name != [] && password != [] && '<' !in name && '<' !in password
    requires exists c :: c in name && !('0' <= c <= '9')
    requires FindByName(f.users, name).None?
    modifies f
    ensures f.Valid()
    ensures f.users == old(f.users)[old(f.nextUserId) := User(name, Hashed(password))]
    ensures f.nextUserId == old(f.nextUserId) + 1
    ensures token !in old(f.sessions) && f.cookie == Some(token)
    ensures f.sessions == old(f.sessions)[token := Session(old(f.nextUserId), f.defaultStamp)]
    ensures f.posts == old(f.posts) && f.nextPostId == old(f.nextPostId)
    ensures f.comments == old(f.comments) && f.uploads == old(f.uploads)
  {
    EscapeFixesSafe(name);
    EscapeFixesSafe(password);
    var o := f.Signup(now, POST, Some(name), Some(password));
    SignupThenLogin(old(f.users), old(f.nextUserId), name, password);
    assert f.Active(now).None?;
    o := f.Login(now, POST, Some(name), Some(password));
    token := f.cookie.value;
  }

  /**
   * Once the import-time stamp is older than the session window, the
   * cookie's session is refused (its row stays), a correct login is
   * accepted with a new token, and that new session is refused as well.
   */
  method ComeBackLater(f: Forum, later: int, name: string, password: string)
    returns (afterWait: Outcome, relogin: Outcome, second: Token, afterRelogin: Outcome)
    requires f.Valid() && f.cookie.Some? && f.cookie.value in f.sessions
    requires later - f.defaultStamp > TTL
    requires CheckCredentials(f.users, name, password).Some?
    modifies f
    ensures f.Valid()
    ensures afterWait == Redirect(LoginPage)
    ensures relogin == Redirect(HomePage)
    ensures Some(second) != old(f.cookie) && second in f.sessions
    ensures f.cookie == None
    ensures afterRelogin == Redirect(LoginPage)
  {
    ghost var first := f.cookie.value;
    afterWait := f.Home(later);
    assert first in f.sessions;
    relogin := f.Login(later, POST, Some(name), Some(password));
    second := f.cookie.value;
    afterRelogin := f.Home(later);
  }

  /** alice signs up and logs in at start-up, then returns six minutes later. */
  method ReloginAfterExpiry(importTime: int)
    returns (first: Token, afterWait: Outcome, relogin: Outcome, second: Token, afterRelogin: Outcome)
    ensures second != first
    ensures afterWait == Redirect(LoginPage)
    ensures relogin == Redirect(HomePage)
    ensures afterRelogin == Redirect(LoginPage)
  {
    var f := new Forum(importTime);
    assert 'a' in "alice";
    first := SignUpAndLogIn(f, importTime, "alice", "hunter2");
    EscapeFixesSafe("alice");
    EscapeFixesSafe("hunter2");
    SignupThenLogin(map[], 1, "alice", "hunter2");
    afterWait, relogin, second, afterRelogin := ComeBackLater(f, importTime + 360, "alice", "hunter2");
  }

  /** bob signs up, logs in, writes post 1 and logs out again. */
  method BobWritesPost(importTime: int) returns (f: Forum)
    ensures fresh(f) && f.Valid() && f.defaultStamp == importTime
    ensures f.users == map[1 := User("bob", Hashed("pw"))] && f.nextUserId == 2
    ensures f.posts == map[1 := Post("t", "t", 1)]
    ensures f.cookie == None
  {
    f := new Forum(importTime);
    assert 'b' in "bob";
    var t := SignUpAndLogIn(f, importTime, "bob", "pw");
    EscapeFixesSafe("t");
    var o := f.CreatePost(importTime, POST, Some("t"), Some("t"));
    o := f.Logout();
  }

  /** bob writes post 1 and logs out; carol logs in and asks to delete it. */
  method ForeignDelete(importTime: int) returns (attempt: Outcome, kept: bool)
    ensures attempt == Redirect(DetailPage(1))
    ensures kept
  {
    var f := BobWritesPost(importTime);
    assert 'c' in "carol";
    assert FindByName(f.users, "carol").None?;
    var t := SignUpAndLogIn(f, importTime, "carol", "pw");
    assert f.Active(importTime) == Some(Session(2, importTime));
    attempt := f.Delete(importTime, 1);
    kept := 1 in f.posts;
  }

  /** A second logout finds no cookie and leaves every table as the first one left it. */
  method LogoutTwice(f: Forum) returns (first: Outcome, again: Outcome)
    requires f.Valid()
    modifies f
    ensures f.Valid() && first == again == Redirect(LoginPage) && f.cookie == None
    ensures old(f.cookie).Some? ==> f.Db() == old(f.Db()).(sessions := old(f.sessions) - {old(f.cookie).value})
    ensures old(f.cookie).None? ==> f.Db() == old(f.Db())
  {
    first := f.Logout();
    ghost var between := f.Db();
    again := f.Logout();
    assert f.Db() == between;
  }
}
