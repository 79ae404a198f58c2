# icewall-community forum: a Dafny model of the request handlers

The forum lets users sign up, log in and out, write posts and comments,
upload files and delete their own posts. Its server is one Flask file,
`app.py`, over four SQLAlchemy tables declared in `models.py`. This project
models that request-handling logic as one in-memory state machine, the class
`App.Forum`. Its fields are:

- the tables `users`, `sessions`, `posts`, `comments` and the upload records;
- the next primary keys the database hands out;
- `cookie`, the client's `session['PHPUSER']` slot;
- `defaultStamp`, the value `datetime.now()` had when `models.py` was imported.

Every handler (`home`, `post_list`, `upload_file`, `post`, `delete`, `comment`, `signup`,
`login`, `logout`) is a method. Each method's postcondition states its
outcome (redirect target, rendered template, not-found, server error) and
the whole new state for every branch of the source.

`Forum.Valid()` is the invariant every handler keeps. It covers:

- the schema's constraints: usernames are unique, the username and password
  columns are non-null, every key is below the next key;
- usernames and passwords are non-empty, which the schema does not demand but
  `signup`'s empty-field check (app.py:196) ensures;
- the references: each session names a user, each post has an existing
  owner, each comment names an allocated post id and an existing author;
- the empty text is never a session token;
- every session row carries `defaultStamp`;
- stored usernames, password hashes, post titles and contents, and comment
  contents never contain `<`, because those fields are escaped (upload
  records keep the sanitized file name as it is).

Modules, leaf first:

- `Wrappers`: `Option`.
- `Models` (`models.py`): the rows; the uniqueness constraint; `generate_uuid`.
- `Escaping`: the `.replace('<', '&lt;')` escape and its laws.
- `Uploads`: `allowed_file` and its characterization.
- `Sessions`: the five-minute window and session resolution.
- `Credentials`: hashing, the two user lookups, and the login decision.
- `App`: the `Forum` class.
- `Scenarios`: request sequences proved only from the handlers' contracts.

Consequences the proofs make explicit:

- The stamp comes from a column default evaluated once at import.
  So whether a session resolves depends only on the clock, not on the login
  time. Once `now - defaultStamp > 300`, a correct login still redirects home,
  but the next request finds the new session expired
  (`Sessions.FixedStampDecidesLiveness`, `Scenarios.ComeBackLater`).
- Passwords are escaped before hashing. So a user who signed up with `&lt;`
  can also log in with `<` (`Credentials.EscapedPasswordsCollide`).
- `signup`'s duplicate pre-check is `User.query.get(username)`, a lookup by
  the integer primary key. In the model, it rejects only names made of digits that
  equal an existing id. A real duplicate name gets through the pre-check and fails on
  the unique constraint at commit, which the model treats as a server error.
- When a form field is missing, `request.form.get` returns `None` and
  `.replace` raises. The model treats this as a server error too.

The model follows what the code does, including where a cleaner design would differ:

- Duplicate usernames give a server error, not a `DuplicateUsername` result.
- Deleting someone else's post redirects to the post page, not `Forbidden`.
- A session's stamp is the import time, not the login time.

## Model

| member | source | states |
|---|---|---|
| `Escaping.Escape` | app.py:114 | the escaped text contains no `<`, is empty exactly when the input is, and is never shorter |
| `Escaping.EscapeFixesSafe` | app.py:114 | escaping leaves a string unchanged exactly when it contains no `<` |
| `Escaping.EscapeIdempotent` | app.py:114-115 | escaping twice equals escaping once |
| `Escaping.EscapeMergesEntity` | app.py:194 | `<` and the literal `&lt;` escape to the same text, so the escape is not injective |
| `Escaping.EscapeAppend` | app.py:114 | the escape distributes over concatenation, so each character is replaced in place |
| `Uploads.LastDot` | app.py:37 | `rsplit('.', 1)`: -1 exactly when there is no `.`, otherwise a `.` with no `.` after it |
| `Uploads.AllowedFile` | app.py:35-37 | true iff some `.` has no `.` after it and the ASCII-lowercased text after it is in `ALLOWED_EXTENSIONS` |
| `Uploads.AllowedFileAccepts` | app.py:14-37 | `a.PNG` passes (case is ignored) and `.png` passes |
| `Uploads.AllowedFileRejects` | app.py:14-37 | `x.tar.gz` fails (only the last extension counts) and `png` fails (no `.`) |
| `Models.InsertKeepsUnique` | models.py:11 | inserting a user whose name is not yet taken keeps usernames unique |
| `Models.GenerateUuid` | models.py:33-39 | a new session id is non-empty and differs from every existing id |
| `Sessions.ExpiryIsPermanent` | app.py:27-31 | a session that has expired at some time is still refused at every later time |
| `Sessions.FixedStampDecidesLiveness` | models.py:42 | a session just created with the default stamp resolves iff `now - stamp <= 300` |
| `Credentials.FindByName` | app.py:232 | `filter_by(username=...).first()` returns a user with that name, and returns none only when no user has it |
| `Credentials.DecimalValue` | app.py:200 | text converts to an integer key exactly when it is a non-empty string of decimal digits |
| `Credentials.LookupById` | app.py:200 | `User.query.get(username)` finds a user exactly when the name is all digits and its value is an existing id, and then finds that user; a name with any other character finds none |
| `Credentials.DecimalValueOfShow` | app.py:200 | reading back the decimal numeral of `n` gives `n`, so `DecimalValue` computes the number a numeral denotes |
| `Credentials.LeadingZeroIgnored` | app.py:200 | a leading `0` does not change the value (`01` denotes 1) |
| `Credentials.LookupByShownId` | app.py:200-202 | the numeral of an existing id finds that user, so signup sends such a name back to the form |
| `Credentials.CheckCredentials` | app.py:225-240 | login authenticates iff both fields are non-empty and some stored user equals the row signup stores for the same raw fields |
| `Credentials.SignupThenLogin` | app.py:193-240 | after signing up with a free name, login with the same raw name and password authenticates the new user |
| `Credentials.LoginNeedsSamePassword` | app.py:226-240 | for an existing user, login succeeds iff the tried password is non-empty and escapes to the signed-up password's escape |
| `Credentials.EscapedPasswordsCollide` | app.py:194-238 | a user who signed up with `&lt;` is authenticated with `<` |
| `App.Forum.constructor` | models.py:7-42 | empty tables, ids start at 1, no cookie, the import time as default stamp |
| `App.Forum.GetSession` | app.py:16-33 | no cookie: none; unknown token: none and cookie cleared; older than 300 (strictly): none and cookie cleared with the row kept; otherwise that row and cookie kept; no table changes |
| `App.Forum.PostList` | app.py:57-64 | always renders the post list and changes no table; a failed gate clears the cookie, otherwise the cookie stays |
| `App.Forum.Home` | app.py:39-55 | a failed gate redirects to login and clears the cookie; otherwise renders home; no table changes |
| `App.Forum.UploadFile` | app.py:67-101 | failed gate: redirects to login, nothing changes. GET renders the form. A POST always redirects home; it appends exactly one record, the sanitized name owned by the session's user, iff a file is present and passes `allowed_file` |
| `App.Forum.CreatePost` | app.py:104-131 | failed gate: redirects to login, nothing changes. A missing field is a server error. An empty title or content redirects to the form and adds nothing. Otherwise exactly one escaped post, owned by the session's user, is added under the next id |
| `App.Forum.Delete` | app.py:138-154 | failed gate: redirects to login, nothing changes. A missing post is not found and a foreign post is kept, both with no change. The owner's request removes exactly that post and nothing else |
| `App.Forum.AddComment` | app.py:156-181 | a GET renders the form without touching the session. A POST behind the gate appends exactly one escaped comment, possibly empty, to an existing post, or is not found |
| `App.Forum.Signup` | app.py:183-213 | an active session redirects home with no change. Empty fields or a primary-key hit send back to the form. A taken name is a server error. Otherwise exactly one user with the escaped name and the hash of the escaped password is added under the next id |
| `App.Forum.Login` | app.py:215-251 | an active session redirects home with no change. A failed credential check gives the one login redirect with nothing created. Success adds exactly one session for the user, with a fresh token and the default stamp, and sets the cookie to it |
| `App.Forum.Logout` | app.py:253-265 | always clears the cookie and redirects to login; deletes the cookie's session row if there is one and changes nothing else |
| `Scenarios.SignUpAndLogIn` | app.py:183-251 | signup then login with a new safe name adds one user and one session, and the cookie holds the new token |
| `Scenarios.ComeBackLater` | app.py:27-31 | once the shared stamp is older than 300, the old session is refused, a correct login issues a different token, and that session is refused as well |
| `Scenarios.ReloginAfterExpiry` | app.py:215-251 | signup, login, then six minutes later: refused, re-login accepted with a new token, refused again |
| `Scenarios.BobWritesPost` | app.py:104-131 | setup for `ForeignDelete`: after signup, login, one post and logout, exactly bob's user and post 1 are stored and there is no cookie |
| `Scenarios.ForeignDelete` | app.py:145-148 | a user deleting another user's post is sent back to the post, which stays |
| `Scenarios.LogoutTwice` | app.py:253-265 | a second logout leaves the tables exactly as the first left them |

## Left out

- Flask plumbing (routing, `url_for`, `redirect`, `render_template`, `flash` messages) becomes `Outcome` values. The 404 and 500 error handlers (app.py:267-273) are the `NotFound` and `ServerError` outcomes. In debug mode Flask shows its debugger instead of the 500 page, which is not modelled.
- `home`'s greeting text (the form's `inputText` or the session user's name) is a flash message and is not modelled.
- `detail` only reads and renders, and is not modelled. The post list `post_list` renders, and its order, are not modelled; only its session gate is.
- The clock is the parameter `now`, in whole seconds, with the window at 300. Sub-second differences of `datetime` are not modelled.
- bcrypt is the constructor `Hashed(password)`. Salting and constant-time comparison are not modelled.
- Credentials.LoginNeedsSamePassword: its "iff" holds only under the `Hashed` abstraction. bcrypt's 72-byte input limit is not modelled: bcrypt truncates longer passwords (newer releases reject them), so two escaped passwords that share their first 72 bytes also match.
- uuid4 randomness becomes a token that no existing session uses (`GenerateUuid`). Its 36-character format is not modelled.
- `secure_filename` and `f.save` become the function parameter `secureFilename`. File I/O and `MAX_CONTENT_LENGTH` are not modelled.
- `FileRecord` is imported by app.py but not defined in models.py. The upload's insert is modelled as appending a filename and uploader record.
- The schema and the handlers disagree here; ownership is modelled as app.py uses it. `Post` declares a `username` foreign key, but app.py uses `post.user_id`, which the model stores as `ownerId`. `Comment` has no user column, but app.py sets `comment.user_id`, which the model keeps as `authorId`.
- `ondelete='CASCADE'`, `onupdate` stamps and the post and comment `datetime` columns are not modelled. `delete` removes only the post; its comments stay with their `postId`. SQLAlchemy's default for the `Comment.post` backref without a delete cascade, which sets each such comment's `post_id` to NULL, is not modelled.
- Primary keys come from counters that are never reused. SQLite's reuse of the largest rowid after a delete is not modelled.
- `Credentials.DecimalValue`, `Credentials.LookupById`: SQLite's text-to-integer conversion is modelled only for strings of decimal digits. Signs, surrounding spaces, decimals and exponents, which SQLite also converts, are not modelled.
- `str.lower()` is ASCII-only. Other Unicode case mappings are not modelled.
- The model starts from an empty database and covers one process lifetime. `db.create_all()` (app.py:288) keeps an existing `db.sqlite`, whose session rows carry an earlier start's import time; the invariant that every session carries `defaultStamp` does not cover that.
- The start-up block (app.py:275-297) and concurrency between requests are not modelled.
