/**
 * The credential checks of app.py's `signup` and `login`: both escape the
 * raw form text, signup stores a bcrypt hash of the escaped password, login
 * looks the user up by escaped name and checks the hash.
 */
module Credentials {
  import opened Wrappers
  import opened Models
  import opened Escaping

  /** `bcrypt.generate_password_hash`. */
  function HashPassword(password: string): Hash
  {
    Hashed(password)
  }

  /** `bcrypt.check_password_hash`. */
  predicate CheckPasswordHash(h: Hash, password: string)
  {
    h == HashPassword(password)
  }

  /** The row signup stores for the raw form fields. */
  function NewUser(rawName: string, rawPassword: string): User
  {
    User(Escape(rawName), HashPassword(Escape(rawPassword)))
  }

  /** `User.query.filter_by(username=name).first()`. */
  function FindByName(users: map<nat, User>, name: string): (r: Option<nat>)
    requires UniqueUsernames(users)
    ensures r.Some? ==> r.value in users && users[r.value].username == name
    ensures r.None? ==> forall id :: id in users ==> users[id].username != name
  {
    if exists id :: id in users && users[id].username == name then
      var id :| id in users && users[id].username == name;
      Some(id)
    else None
  }

  /**
   * The integer a text key denotes when SQLite compares it with the integer
   * primary key `user.id`: only a non-empty string of decimal digits
   * converts; any other text never equals an integer key.
   */
  function DecimalValue(s: string): (r: Option<nat>)
    ensures r.Some? <==> s != [] && forall i :: 0 <= i < |s| ==> '0' <= s[i] <= '9'
    decreases |s|
  {
    if s == [] || !('0' <= s[|s| - 1] <= '9') then None
    else
      var d := s[|s| - 1] as int - '0' as int;
      if |s| == 1 then Some(d)
      else match DecimalValue(s[..|s| - 1])
        case None => None
        case Some(v) => Some(10 * v + d)
  }

  /** The decimal digit for `d`. */
  function Digit(d: nat): char
    requires d < 10
  {
    ('0' as int + d) as char
  }

  /** The decimal numeral of `n`, without leading zeros. */
  function Show(n: nat): (s: string)
    ensures s != [] && forall i :: 0 <= i < |s| ==> '0' <= s[i] <= '9'
  {
    if n < 10 then [Digit(n)] else Show(n / 10) + [Digit(n % 10)]
  }

  /** Reading a numeral back gives the number it shows. */
  lemma {:induction false} DecimalValueOfShow(n: nat)
    ensures DecimalValue(Show(n)) == Some(n)
  {
    if n >= 10 {
      DecimalValueOfShow(n / 10);
      var s := Show(n);
      assert s[..|s| - 1] == Show(n / 10);
    }
  }

  /** A leading '0' does not change the value a digit string denotes. */
  lemma {:induction false} LeadingZeroIgnored(s: string)
    requires s != []
    ensures DecimalValue(['0'] + s) == DecimalValue(s)
    decreases |s|
  {
    var z := ['0'] + s;
    assert z[|z| - 1] == s[|s| - 1];
    if |s| > 1 {
      assert z[..|z| - 1] == ['0'] + s[..|s| - 1];
      LeadingZeroIgnored(s[..|s| - 1]);
    } else {
      assert z[..|z| - 1] == ['0'];
    }
  }

  /** `User.query.get(name)`: a primary-key lookup with the username as key. */
  function LookupById(users: map<nat, User>, name: string): (r: Option<User>)
    ensures r.Some? ==> DecimalValue(name).Some? && DecimalValue(name).value in users
                        && r.value == users[DecimalValue(name).value]
    ensures DecimalValue(name).Some? && DecimalValue(name).value in users
            ==> r == Some(users[DecimalValue(name).value])
    ensures (exists c :: c in name && !('0' <= c <= '9')) ==> r.None?
  {
    match DecimalValue(name)
    case Some(k) => if k in users then Some(users[k]) else None
    case None => None
  }

  /** A username that is the numeral of an existing id finds that user, so signup turns it away. */
  lemma LookupByShownId(users: map<nat, User>, id: nat)
    requires id in users
    ensures LookupById(users, Show(id)) == Some(users[id])
  {
    DecimalValueOfShow(id);
  }

  /**
   * The user a login with these raw form fields authenticates, if any: the
   * escaped fields must be non-empty, a user must carry the escaped name,
   * and that user's hash must check against the escaped password.
   */
  function CheckCredentials(users: map<nat, User>, rawName: string, rawPassword: string): (r: Option<nat>)
    requires UniqueUsernames(users)
    ensures r.Some? <==> rawName != [] && rawPassword != []
                         && exists id :: id in users && users[id] == NewUser(rawName, rawPassword)
    ensures r.Some? ==> r.value in users && users[r.value] == NewUser(rawName, rawPassword)
  {
    var name := Escape(rawName);
    var password := Escape(rawPassword);
    if name == [] || password == [] then None
    else match FindByName(users, name)
      case None => None
      case Some(id) => if CheckPasswordHash(users[id].password, password) then Some(id) else None
  }

  /** After signing up with a name, logging in with the same raw fields authenticates that user. */
  lemma SignupThenLogin(users: map<nat, User>, id: nat, rawName: string, rawPassword: string)
    requires UniqueUsernames(users)
    requires id !in users
    requires rawName != [] && rawPassword != []
    requires FindByName(users, Escape(rawName)).None?
    ensures UniqueUsernames(users[id := NewUser(rawName, rawPassword)])
    ensures CheckCredentials(users[id := NewUser(rawName, rawPassword)], rawName, rawPassword) == Some(id)
  {
    var after := users[id := NewUser(rawName, rawPassword)];
    InsertKeepsUnique(users, id, NewUser(rawName, rawPassword));
    var r := CheckCredentials(after, rawName, rawPassword);
    assert r.Some? by { assert after[id] == NewUser(rawName, rawPassword); }
    assert after[r.value].username == after[id].username;
  }

  /** A login fails unless the escaped password is the escaped password the user signed up with. */
  lemma LoginNeedsSamePassword(users: map<nat, User>, rawName: string, signedUp: string, tried: string)
    requires UniqueUsernames(users)
    requires exists id :: id in users && users[id] == NewUser(rawName, signedUp)
    ensures CheckCredentials(users, rawName, tried).Some?
        <==> tried != [] && rawName != [] && Escape(tried) == Escape(signedUp)
  {
  }

  /**
   * Because the password is escaped before hashing, a user who signed up
   * with the text "&lt;" is also let in with the password "<".
   */
  lemma EscapedPasswordsCollide(users: map<nat, User>, id: nat, rawName: string)
    requires UniqueUsernames(users)
    requires id !in users && rawName != []
    requires FindByName(users, Escape(rawName)).None?
    ensures CheckCredentials(users[id := NewUser(rawName, LT_ENTITY)], rawName, "<") == Some(id)
  {
    EscapeMergesEntity();
    SignupThenLogin(users, id, rawName, LT_ENTITY);
    assert NewUser(rawName, "<") == NewUser(rawName, LT_ENTITY);
  }
}
