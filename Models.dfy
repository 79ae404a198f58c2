/**
 * The four tables of models.py as record types, the constraints the schema
 * puts on them, and the session id generator `generate_uuid`.
 */
module Models {

  /** A session id: the text of a uuid4. */
  type Token = string

  /** A bcrypt password hash, abstracted to the password it was made from. */
  datatype Hash = Hashed(secret: string)

  /** A `user` row; its integer primary key is the key of the users table. */
  datatype User = User(username: string, password: Hash)

  /**
   * A `post` row as app.py uses it: the owner is the user id app.py stores
   * in `post.user_id`; the primary key is the key of the posts table.
   */
  datatype Post = Post(title: string, content: string, ownerId: nat)

  /** A `comment` row: the post it belongs to, the author app.py records, and its text. */
  datatype Comment = Comment(postId: nat, authorId: nat, content: string)

  /** A `session` row: the user it logs in and its `datetime` stamp; the token is its key. */
  datatype Session = Session(userId: nat, stamp: int)

  /** The record an upload inserts: the stored file name and its uploader. */
  datatype FileRecord = FileRecord(filename: string, ownerId: nat)

  /** The `unique=True` constraint on `user.username`. */
  ghost predicate UniqueUsernames(users: map<nat, User>)
  {
    forall i, j :: i in users && j in users && users[i].username == users[j].username ==> i == j
  }

  /** Inserting a user whose name is not yet taken keeps usernames unique. */
  lemma InsertKeepsUnique(users: map<nat, User>, id: nat, u: User)
    requires UniqueUsernames(users)
    requires id !in users
    requires forall k :: k in users ==> users[k].username != u.username
    ensures UniqueUsernames(users[id := u])
  {
  }

  /** An upper bound on the lengths of a finite set of strings. */
  ghost function MaxLength(s: set<string>): (m: nat)
    ensures forall t :: t in s ==> |t| <= m
    decreases s
  {
    if s == {} then 0
    else
      var x :| x in s;
      var rest := MaxLength(s - {x});
      if |x| < rest then rest else |x|
  }

  /**
   * `generate_uuid`, the default of `session.id`: a token that no existing
   * session uses. The randomness of uuid4 is modelled as this freshness.
   */
  method GenerateUuid(used: set<Token>) returns (t: Token)
    ensures t != [] && t !in used
  {
    ghost var longer := seq(MaxLength(used) + 1, _ => '0');
    assert longer != [] && longer !in used;
    t :| t != [] && t !in used;
  }
}
