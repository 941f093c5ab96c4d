/**
 * src/auth.ts: the credentials provider's `authorize`, which signs a user in
 * or, for an unknown email, registers one on the spot, and the `jwt` and
 * `session` callbacks that carry the user id into the session. The users
 * table is a map from email (unique in src/db/schema.ts) to the rest of the
 * row; the id the database would generate is a parameter.
 */
module Auth {
  import opened Wrappers
  import opened Text

  datatype UserRow = UserRow(id: string, name: string, password: string)

  type Users = map<string, UserRow>

  /** What `authorize` returns on success. */
  datatype AuthUser = AuthUser(id: string, email: string, name: string)

  datatype Authorized = Authorized(users: Users, user: Option<AuthUser>)

  /** A credential field is truthy: present and non-empty. */
  predicate Given(o: Option<string>) {
    o.Some? && o.value != ""
  }

  /** `email.split("@")[0]`. */
  function NameFor(email: string): (name: string)
    ensures '@' !in name && StartsWith(email, name)
    ensures '@' !in email ==> name == email
  {
    BeforeFirst(email, '@')
  }

  /**
   * `authorize`: missing credentials and a wrong password give no user and
   * leave the table alone; an unknown email adds exactly one user, named
   * after the part before the `@`; a matching password returns the stored
   * user.
   */
  function Authorize(users: Users, email: Option<string>, password: Option<string>, newId: string): (r: Authorized)
    ensures !Given(email) || !Given(password) ==> r == Authorized(users, None)
    ensures Given(email) && Given(password) && email.value !in users ==>
      && r.users == users[email.value := UserRow(newId, NameFor(email.value), password.value)]
      && r.user == Some(AuthUser(newId, email.value, NameFor(email.value)))
    ensures Given(email) && Given(password) && email.value in users ==>
      && r.users == users
      && (r.user.Some? <==> users[email.value].password == password.value)
      && (r.user.Some? ==> r.user.value == AuthUser(users[email.value].id, email.value, users[email.value].name))
  {
    if !Given(email) || !Given(password) then Authorized(users, None)
    else
      var e := email.value;
      if e !in users then
        var row := UserRow(newId, NameFor(e), password.value);
        Authorized(users[e := row], Some(AuthUser(newId, e, row.name)))
      else if users[e].password != password.value then Authorized(users, None)
      else Authorized(users, Some(AuthUser(users[e].id, e, users[e].name)))
  }

  /** Every user id is distinct. */
  predicate UniqueIds(users: Users) {
    forall a, b :: a in users && b in users && a != b ==> users[a].id != users[b].id
  }

  /** With a freshly generated id, registration keeps user ids distinct. */
  lemma AuthorizeKeepsIdsUnique(users: Users, email: Option<string>, password: Option<string>, newId: string)
    requires UniqueIds(users)
    requires forall e :: e in users ==> users[e].id != newId
    ensures UniqueIds(Authorize(users, email, password, newId).users)
  {
  }

  /**
   * Signing in again with credentials that just succeeded returns the same
   * user and changes nothing, whatever id the database would generate.
   */
  lemma AuthorizeIdempotent(users: Users, email: Option<string>, password: Option<string>, newId: string, otherId: string)
    requires Authorize(users, email, password, newId).user.Some?
    ensures var first := Authorize(users, email, password, newId);
      var second := Authorize(first.users, email, password, otherId);
      second == Authorized(first.users, first.user)
  {
  }

  /** The parts of the token and the session the callbacks touch. */
  datatype Token = Token(id: Option<string>)

  datatype Session = Session(userId: Option<string>)

  /** The `jwt` callback: records the user's id when a user is given (at sign-in). */
  function Jwt(token: Token, user: Option<AuthUser>): (t: Token)
    ensures user.Some? ==> t.id == Some(user.value.id)
    ensures user.None? ==> t == token
  {
    if user.Some? then token.(id := Some(user.value.id)) else token
  }

  /** The `session` callback: copies the token's id when it is truthy. */
  function SessionOf(session: Session, token: Token): (s: Session)
    ensures Given(token.id) ==> s.userId == token.id
    ensures !Given(token.id) ==> s == session
  {
    if Given(token.id) then session.(userId := token.id) else session
  }

  /**
   * A successful sign-in reaches the session: the session's user id is the
   * stored user's id, and later requests (no user given) keep it.
   */
  lemma SignInReachesSession(users: Users, email: string, password: string, newId: string, token: Token, session: Session)
    requires Given(Some(email)) && Given(Some(password))
    requires email in users && users[email].password == password && users[email].id != ""
    ensures var u := Authorize(users, Some(email), Some(password), newId).user;
      var t := Jwt(token, u);
      && SessionOf(session, t).userId == Some(users[email].id)
      && Jwt(t, None) == t
  {
  }
}
