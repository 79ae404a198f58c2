/**
 * The request handlers of app.py over one in-memory copy of the database
 * and the client's session cookie. Each handler is a method; what it
 * renders or where it redirects is its `Outcome`.
 */
module App {
  import opened Wrappers
  import opened Models
  import opened Escaping
  import opened Uploads
  import opened Sessions
  import opened Credentials

  datatype HttpMethod = GET | POST

  /** The routes a handler redirects to and the templates it renders. */
  datatype Page =
    | HomePage
    | LoginPage
    | SignupPage
    | PostFormPage
    | PostListPage
    | DetailPage(postId: nat)
    | UploadFormPage
    | CommentFormPage

  /** What a handler returns; the error page is the one the 404 and 500 handlers render. */
  datatype Outcome =
    | Redirect(to: Page)
    | Render(view: Page)
    | NotFound
    | ServerError

  /** The persisted tables, with the next primary keys the database would hand out. */
  datatype Tables = Tables(
    users: map<nat, User>,
    nextUserId: nat,
    sessions: map<Token, Session>,
    posts: map<nat, Post>,
    nextPostId: nat,
    comments: seq<Comment>,
    uploads: seq<FileRecord>)

  /** A stored user: both fields are non-empty escaped text. */
  predicate StoredUser(u: User)
  {
    u.username != [] && '<' !in u.username && u.password.secret != [] && '<' !in u.password.secret
  }

  /** A stored post: non-empty escaped title and content. */
  predicate StoredPost(p: Post)
  {
    p.title != [] && p.content != [] && '<' !in p.title && '<' !in p.content
  }

  class Forum {
    var users: map<nat, User>
    var nextUserId: nat
    var sessions: map<Token, Session>
    var posts: map<nat, Post>
    var nextPostId: nat
    var comments: seq<Comment>
    var uploads: seq<FileRecord>
    /** The `session[SESSION_FIELD]` slot of the client's Flask session. */
    var cookie: Option<Token>
    /** The value `datetime.now()` had when models.py was imported: the stamp of every session this process creates. */
    const defaultStamp: int

    function Db(): Tables
      reads this
    {
      Tables(users, nextUserId, sessions, posts, nextPostId, comments, uploads)
    }

    /** The session the cookie resolves to at `now`. */
    function Active(now: int): Option<Session>
      reads this
    {
      Resolve(cookie, sessions, now)
    }

    /** The schema's constraints and the invariants the handlers keep. */
    ghost predicate Valid()
      reads this
    {
      && (forall id :: id in users ==> id < nextUserId && StoredUser(users[id]))
      && UniqueUsernames(users)
      && [] !in sessions
      && (forall t :: t in sessions ==> sessions[t].userId in users && sessions[t].stamp == defaultStamp)
      && (forall id :: id in posts ==> id < nextPostId && posts[id].ownerId in users && StoredPost(posts[id]))
      && (forall i :: 0 <= i < |comments| ==>
            comments[i].postId < nextPostId && comments[i].authorId in users && '<' !in comments[i].content)
      && (forall i :: 0 <= i < |uploads| ==> uploads[i].ownerId in users)
    }

    /** An empty database, with `importTime` as the sessions' default stamp, and no cookie. */
    constructor (importTime: int)
      ensures Valid()
      ensures Db() == Tables(map[], 1, map[], map[], 1, [], [])
      ensures cookie == None && defaultStamp == importTime
    {
      users, nextUserId, sessions := map[], 1, map[];
      posts, nextPostId, comments, uploads := map[], 1, [], [];
      cookie := None;
      defaultStamp := importTime;
    }

    /**
     * `get_session_from_session`: resolve the cookie. A missing, unknown or
     * expired token gives no session and clears the cookie; no table changes,
     * in particular an expired row stays.
     */
    method GetSession(now: int) returns (s: Option<Session>)
      requires Valid()
      modifies this`cookie
      ensures Valid() && Db() == old(Db())
      ensures s == old(Active(now))
      ensures old(cookie).None? ==> s.None? && cookie == None
      ensures old(cookie).Some? && old(cookie).value !in sessions ==> s.None? && cookie == None
      ensures old(cookie).Some? && old(cookie).value in sessions ==>
                if now - sessions[old(cookie).value].stamp > TTL
                then s.None? && cookie == None
                else s == Some(sessions[old(cookie).value]) && cookie == old(cookie)
    {
      if cookie.None? {
        return None;
      }
      var token := cookie.value;
      if token !in sessions {
        cookie := None;
        return None;
      }
      var row := sessions[token];
      if now - row.stamp > TTL {
        cookie := None;
        return None;
      }
      return Some(row);
    }

    /** `home`: the greeting page, behind the login gate. */
    method Home(now: int) returns (out: Outcome)
      requires Valid()
      modifies this`cookie
      ensures Valid() && Db() == old(Db())
      ensures old(Active(now)).None? ==> out == Redirect(LoginPage) && cookie == None
      ensures old(Active(now)).Some? ==> out == Render(HomePage) && cookie == old(cookie)
    {
      var s := GetSession(now);
      if s.None? {
        return Redirect(LoginPage);
      }
      return Render(HomePage);
    }

    /**
     * `post_list`: runs the session gate, which clears an unknown or expired
     * cookie, and renders the list whether or not a session was found.
     */
    method PostList(now: int) returns (out: Outcome)
      requires Valid()
      modifies this`cookie
      ensures Valid() && Db() == old(Db()) && out == Render(PostListPage)
      ensures old(Active(now)).None? ==> cookie == None
      ensures old(Active(now)).Some? ==> cookie == old(cookie)
    {
      var s := GetSession(now);
      return Render(PostListPage);
    }

    /**
     * `upload_file`: behind the login gate, a POST with a non-empty file name
     * that passes the allow-list records the upload under the sanitized name
     * `secureFilename` gives; every other POST changes nothing. All POSTs
     * end on the home page.
     */
    method UploadFile(now: int, verb: HttpMethod, file: Option<string>, secureFilename: string -> string)
      returns (out: Outcome)
      requires Valid()
      modifies this`cookie, this`uploads
      ensures Valid()
      ensures old(Active(now)).None? ==> out == Redirect(LoginPage) && cookie == None && Db() == old(Db())
      ensures old(Active(now)).Some? ==> cookie == old(cookie)
      ensures old(Active(now)).Some? && verb == GET ==> out == Render(UploadFormPage) && Db() == old(Db())
      ensures old(Active(now)).Some? && verb == POST ==>
                out == Redirect(HomePage)
                && Db() == if file.Some? && AllowedFile(file.value)
                           then old(Db()).(uploads := old(uploads) + [FileRecord(secureFilename(file.value), old(Active(now)).value.userId)])
                           else old(Db())
    {
      var s := GetSession(now);
      if s.None? {
        return Redirect(LoginPage);
      }
      if verb == GET {
        return Render(UploadFormPage);
      }
      if file.None? {
        return Redirect(HomePage);
      }
      var name := file.value;
      if name == [] {
        return Redirect(HomePage);
      }
      if !AllowedFile(name) {
        return Redirect(HomePage);
      }
      uploads := uploads + [FileRecord(secureFilename(name), s.value.userId)];
      return Redirect(HomePage);
    }

    /**
     * `post`: behind the login gate, a POST escapes title and content and,
     * when both are non-empty, adds exactly one post owned by the session's
     * user. A missing form field raises before anything is written.
     */
    method CreatePost(now: int, verb: HttpMethod, title: Option<string>, content: Option<string>)
      returns (out: Outcome)
      requires Valid()
      modifies this`cookie, this`posts, this`nextPostId
      ensures Valid()
      ensures old(Active(now)).None? ==> out == Redirect(LoginPage) && cookie == None && Db() == old(Db())
      ensures old(Active(now)).Some? ==> cookie == old(cookie)
      ensures old(Active(now)).Some? && verb == GET ==> out == Render(PostFormPage) && Db() == old(Db())
      ensures old(Active(now)).Some? && verb == POST && (title.None? || content.None?) ==>
                out == ServerError && Db() == old(Db())
      ensures old(Active(now)).Some? && verb == POST && title.Some? && content.Some? ==>
                if title.value == [] || content.value == []
                then out == Redirect(PostFormPage) && Db() == old(Db())
                else out == Redirect(PostListPage)
                     && Db() == old(Db()).(
                          posts := old(posts)[old(nextPostId) := Post(Escape(title.value), Escape(content.value), old(Active(now)).value.userId)],
                          nextPostId := old(nextPostId) + 1)
    {
      var s := GetSession(now);
      if s.None? {
        return Redirect(LoginPage);
      }
      if verb == GET {
        return Render(PostFormPage);
      }
      if title.None? || content.None? {
        return ServerError;
      }
      var t := Escape(title.value);
      var c := Escape(content.value);
      if t == [] || c == [] {
        return Redirect(PostFormPage);
      }
      posts := posts[nextPostId := Post(t, c, s.value.userId)];
      nextPostId := nextPostId + 1;
      return Redirect(PostListPage);
    }

    /**
     * `delete`: behind the login gate, a missing post is not found and a post
     * owned by someone else is left in place; the owner's request removes
     * exactly that post and nothing else (its comments stay).
     */
    method Delete(now: int, postId: nat) returns (out: Outcome)
      requires Valid()
      modifies this`cookie, this`posts
      ensures Valid()
      ensures old(Active(now)).None? ==> out == Redirect(LoginPage) && cookie == None && Db() == old(Db())
      ensures old(Active(now)).Some? ==> cookie == old(cookie)
      ensures old(Active(now)).Some? && postId !in old(posts) ==> out == NotFound && Db() == old(Db())
      ensures old(Active(now)).Some? && postId in old(posts) ==>
                if old(posts)[postId].ownerId != old(Active(now)).value.userId
                then out == Redirect(DetailPage(postId)) && Db() == old(Db())
                else out == Redirect(PostListPage) && Db() == old(Db()).(posts := old(posts) - {postId})
    {
      var s := GetSession(now);
      if s.None? {
        return Redirect(LoginPage);
      }
      if postId !in posts {
        return NotFound;
      }
      if posts[postId].ownerId != s.value.userId {
        return Redirect(DetailPage(postId));
      }
      posts := posts - {postId};
      return Redirect(PostListPage);
    }

    /**
     * `comment`: a GET only renders the form, without looking at the
     * session. A POST passes the login gate, escapes the content (an empty
     * comment is allowed) and appends it to an existing post.
     */
    method AddComment(now: int, verb: HttpMethod, postId: nat, content: Option<string>)
      returns (out: Outcome)
      requires Valid()
      modifies this`cookie, this`comments
      ensures Valid()
      ensures verb == GET ==> out == Render(CommentFormPage) && cookie == old(cookie) && Db() == old(Db())
      ensures verb == POST && old(Active(now)).None? ==> out == Redirect(LoginPage) && cookie == None && Db() == old(Db())
      ensures verb == POST && old(Active(now)).Some? ==> cookie == old(cookie)
      ensures verb == POST && old(Active(now)).Some? && content.None? ==> out == ServerError && Db() == old(Db())
      ensures verb == POST && old(Active(now)).Some? && content.Some? ==>
                if postId !in old(posts)
                then out == NotFound && Db() == old(Db())
                else out == Redirect(DetailPage(postId))
                     && Db() == old(Db()).(comments := old(comments) + [Comment(postId, old(Active(now)).value.userId, Escape(content.value))])
    {
      if verb == GET {
        return Render(CommentFormPage);
      }
      var s := GetSession(now);
      if s.None? {
        return Redirect(LoginPage);
      }
      if content.None? {
        return ServerError;
      }
      var text := Escape(content.value);
      if postId !in posts {
        return NotFound;
      }
      comments := comments + [Comment(postId, s.value.userId, text)];
      return Redirect(DetailPage(postId));
    }

    /**
     * `signup`: a logged-in client is sent home. Otherwise a POST escapes both
     * fields; empty fields, or a username that the primary-key lookup finds,
     * send the client back to the form. A username already stored trips the
     * unique constraint when the row is committed. Any other request stores
     * exactly one new user with the hash of the escaped password.
     */
    method Signup(now: int, verb: HttpMethod, username: Option<string>, password: Option<string>)
      returns (out: Outcome)
      requires Valid()
      modifies this`cookie, this`users, this`nextUserId
      ensures Valid()
      ensures old(Active(now)).Some? ==> out == Redirect(HomePage) && cookie == old(cookie) && Db() == old(Db())
      ensures old(Active(now)).None? ==> cookie == None
      ensures old(Active(now)).None? && verb == GET ==> out == Render(SignupPage) && Db() == old(Db())
      ensures old(Active(now)).None? && verb == POST && (username.None? || password.None?) ==>
                out == ServerError && Db() == old(Db())
      ensures old(Active(now)).None? && verb == POST && username.Some? && password.Some? ==>
                var name := Escape(username.value);
                if username.value == [] || password.value == [] || LookupById(old(users), name).Some?
                then out == Redirect(SignupPage) && Db() == old(Db())
                else if FindByName(old(users), name).Some?
                then out == ServerError && Db() == old(Db())
                else out == Redirect(LoginPage)
                     && Db() == old(Db()).(
                          users := old(users)[old(nextUserId) := NewUser(username.value, password.value)],
                          nextUserId := old(nextUserId) + 1)
    {
      var s := GetSession(now);
      if s.Some? {
        return Redirect(HomePage);
      }
      if verb == GET {
        return Render(SignupPage);
      }
      if username.None? || password.None? {
        return ServerError;
      }
      var name := Escape(username.value);
      var secret := Escape(password.value);
      if name == [] || secret == [] {
        return Redirect(SignupPage);
      }
      if LookupById(users, name).Some? {
        return Redirect(SignupPage);
      }
      var hash := HashPassword(secret);
      if FindByName(users, name).Some? {
        return ServerError;
      }
      InsertKeepsUnique(users, nextUserId, User(name, hash));
      users := users[nextUserId := User(name, hash)];
      nextUserId := nextUserId + 1;
      return Redirect(LoginPage);
    }

    /**
     * `login`: a logged-in client is sent home. Otherwise a POST whose escaped
     * fields authenticate a user adds exactly one session for that user under
     * a fresh token and puts the token in the cookie; empty fields, an unknown
     * name and a wrong password all end at the login form with nothing
     * created.
     */
    method Login(now: int, verb: HttpMethod, username: Option<string>, password: Option<string>)
      returns (out: Outcome)
      requires Valid()
      modifies this`cookie, this`sessions
      ensures Valid()
      ensures old(Active(now)).Some? ==> out == Redirect(HomePage) && cookie == old(cookie) && Db() == old(Db())
      ensures old(Active(now)).None? && verb == GET ==> out == Render(LoginPage) && cookie == None && Db() == old(Db())
      ensures old(Active(now)).None? && verb == POST && (username.None? || password.None?) ==>
                out == ServerError && cookie == None && Db() == old(Db())
      ensures old(Active(now)).None? && verb == POST && username.Some? && password.Some? ==>
                var who := CheckCredentials(old(users), username.value, password.value);
                if who.None?
                then out == Redirect(LoginPage) && cookie == None && Db() == old(Db())
                else out == Redirect(HomePage)
                     && cookie.Some? && cookie.value !in old(sessions)
                     && Db() == old(Db()).(sessions := old(sessions)[cookie.value := Session(who.value, defaultStamp)])
    {
      var s := GetSession(now);
      if s.Some? {
        return Redirect(HomePage);
      }
      if verb == GET {
        return Render(LoginPage);
      }
      if username.None? || password.None? {
        return ServerError;
      }
      var name := Escape(username.value);
      var secret := Escape(password.value);
      if name == [] || secret == [] {
        return Redirect(LoginPage);
      }
      var found := FindByName(users, name);
      if found.None? {
        return Redirect(LoginPage);
      }
      var id := found.value;
      if !CheckPasswordHash(users[id].password, secret) {
        return Redirect(LoginPage);
      }
      var token := GenerateUuid(sessions.Keys);
      sessions := sessions[token := Session(id, defaultStamp)];
      cookie := Some(token);
      return Redirect(HomePage);
    }

    /**
     * `logout`: the cookie is always cleared; the session row it named is
     * deleted if there is one. Without a cookie the looked-up key is the
     * empty text, which no session has.
     */
    method Logout() returns (out: Outcome)
      requires Valid()
      modifies this`cookie, this`sessions
      ensures Valid()
      ensures out == Redirect(LoginPage) && cookie == None
      ensures old(cookie).None? ==> Db() == old(Db())
      ensures old(cookie).Some? ==> Db() == old(Db()).(sessions := old(sessions) - {old(cookie).value})
    {
      var token := if cookie.Some? then cookie.value else [];
      cookie := None;
      if token in sessions {
        sessions := sessions - {token};
      }
      return Redirect(LoginPage);
    }
  }
}
