/** The User document: field constraints, uniqueness and defaults. */
module UserModel {
  import opened Common
  import opened Text

  datatype User = User(
    id: UserId,
    username: string,
    email: string,
    password: string,
    role: string,
    books: seq<BookId>,
    cart: seq<CartId>,
    orders: seq<OrderId>)

  const DEFAULT_ROLE: string := "customer"

  /** The characters a regular-expression `.` does not match. */
  predicate IsLineTerminator(c: char) {
    c == '\n' || c == '\r' || c == '\U{2028}' || c == '\U{2029}'
  }

  /**
   * `/.+\@.+\..+/` matches with its '@' at `at` and its '.' at `dot`: one
   * or more non-terminators before '@', between the two, and after '.'.
   */
  predicate EmailMatchesAt(s: string, at: int, dot: int) {
    && 1 <= at && at + 2 <= dot && dot + 2 <= |s|
    && s[at] == '@' && s[dot] == '.'
    && !IsLineTerminator(s[at - 1]) && !IsLineTerminator(s[dot + 1])
    && forall k :: at < k < dot ==> !IsLineTerminator(s[k])
  }

  /** The schema's `match` regex, which is not anchored: a match anywhere will do. */
  predicate EmailMatches(s: string) {
    exists at, dot | 0 <= at < |s| && 0 <= dot < |s| :: EmailMatchesAt(s, at, dot)
  }

  /** What the user schema enforces on save. */
  predicate UserSchemaOk(u: User) {
    && u.username != "" && Trim(u.username) == u.username
    && u.email != "" && EmailMatches(u.email)
    && u.password != ""
  }

  /** The three `unique: true` indexes: username, email and password. */
  predicate UniqueAcrossUsers(users: map<UserId, User>) {
    forall a, b :: a in users && b in users && a != b ==>
      && users[a].username != users[b].username
      && users[a].email != users[b].email
      && users[a].password != users[b].password
  }

  /** A new user document: `username` trimmed by its setter, `role` by default "customer", empty id lists. */
  function NewUser(id: UserId, username: string, email: string, password: string): (u: User)
    ensures u.role == DEFAULT_ROLE && u.books == [] && u.cart == [] && u.orders == []
    ensures Trim(u.username) == u.username && u.email == email && u.password == password
  {
    TrimIdempotent(username);
    User(id, Trim(username), email, password, DEFAULT_ROLE, [], [], [])
  }

  /**
   * A new user passes the schema exactly when the trimmed username is not
   * empty, the email matches the regex and the password is not empty.
   */
  lemma NewUserSchemaOk(id: UserId, username: string, email: string, password: string)
    ensures UserSchemaOk(NewUser(id, username, email, password))
      <==> Trim(username) != "" && EmailMatches(email) && password != ""
  {
    if EmailMatches(email) {
      EmailShape(email);
    }
  }

  /** Anything the regex accepts has an '@' and, after it, a '.', and at least five characters. */
  lemma EmailShape(s: string)
    requires EmailMatches(s)
    ensures |s| >= 5 && '@' in s && '.' in s
  {
    var at, dot :| 0 <= at < |s| && 0 <= dot < |s| && EmailMatchesAt(s, at, dot);
    assert s[at] == '@' && s[dot] == '.';
  }

  lemma EmailExamples()
    ensures EmailMatches("a@b.c")
    ensures EmailMatches("<a@b.c>\n")
    ensures EmailMatches("a@b@c.d")
    ensures !EmailMatches("a@b.")
    ensures !EmailMatches("@bc.d")
    ensures !EmailMatches("a@.c")
  {
    assert EmailMatchesAt("a@b.c", 1, 3);
    assert EmailMatchesAt("<a@b.c>\n", 2, 4);
    assert EmailMatchesAt("a@b@c.d", 1, 5);
  }

  /** A line break between '@' and '.' breaks every match. */
  lemma EmailLineBreak()
    ensures !EmailMatches("ab@c\nd.ef")
  {
    var s := "ab@c\nd.ef";
    forall at, dot ensures !EmailMatchesAt(s, at, dot) {
      if at == 2 && dot == 6 {
        assert IsLineTerminator(s[4]);
      }
    }
  }

  /** Changing only a user's id lists keeps the three unique indexes satisfied. */
  lemma UniqueAfterListUpdate(users: map<UserId, User>, uid: UserId, u: User)
    requires UniqueAcrossUsers(users) && uid in users
    requires u.username == users[uid].username && u.email == users[uid].email && u.password == users[uid].password
    ensures UniqueAcrossUsers(users[uid := u])
  {
  }
}
