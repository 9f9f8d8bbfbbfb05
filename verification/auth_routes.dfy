/** The auth router: register, login, isLoggedIn and logout over the users
    table, modelled as its rows in insertion order plus the next
    auto-increment id. Password hashing and token signing are abstract
    (`Crypto`); the session cookie is an instruction in the response. */
module AuthRoutes {
  import opened Base
  import opened JsValue
  import opened Validators
  import Session

  /** A row of the users table. */
  datatype User = User(id: nat, name: string, email: string, passwordHash: string)

  datatype Users = Users(rows: seq<User>, nextId: nat)

  /** Ids and e-mail addresses are unique, and the next id is unused. */
  predicate Valid(u: Users)
  {
    && (forall i, j :: 0 <= i < j < |u.rows| ==>
          u.rows[i].email != u.rows[j].email && u.rows[i].id != u.rows[j].id)
    && (forall i :: 0 <= i < |u.rows| ==> u.rows[i].id < u.nextId)
  }

  /** bcrypt and jsonwebtoken. `hash(password, salt)`: the salt stands for
      the random salt bcrypt draws at cost 10. `sign(userId)`: a token for
      the payload `{ userId }` under the server secret with the 7-day
      expiry. `verify`: the payload's `userId`, or None wherever
      `jwt.verify` throws. */
  datatype Crypto = Crypto(hash: (string, nat) -> string, compare: (string, string) -> bool,
                           sign: nat -> string, verify: string -> Option<int>)

  /** The session cookie lives 7 days: 7 * 24 * 60 * 60 * 1000 milliseconds. */
  const CookieMaxAgeMs := 604800000
  const InvalidCredentials := "Invalid credentials"
  const EmailUsed := "Email already used"
  const UserNotFound := "User not found"

  /** What the API tells about a user: never the password hash. */
  datatype Summary = Summary(id: nat, name: string, email: string)

  function SummaryOf(u: User): Summary
  {
    Summary(u.id, u.name, u.email)
  }

  /** Response bodies: `{id,name,email}`, `{user}`, `{message}`,
      `{errors}`, `{ok}`. */
  datatype Body =
    | Fields(summary: Summary)
    | Wrapped(user: Summary)
    | Message(text: string)
    | Errors(issues: seq<Issue>)
    | LoggedOut(ok: bool)

  /** What the response does to the browser's session cookie. */
  datatype CookieAction = Untouched | SetSession(token: string, maxAgeMs: int) | ClearSession

  datatype Response = Response(status: int, body: Body, cookie: CookieAction)

  datatype RegisterOutcome = RegisterOutcome(response: Response, users: Users)

  const CredentialsRefused := Response(400, Message(InvalidCredentials), Untouched)

  /** The two unique keys the routes look users up by. */
  datatype Key = ByEmail(email: string) | ById(id: int)

  predicate HasKey(u: User, k: Key)
  {
    match k
    case ByEmail(email) => u.email == email
    case ById(id) => u.id == id
  }

  /** `findUnique({ where: ... })`: the first row with the key, if any. */
  function Find(rows: seq<User>, k: Key): (r: Option<User>)
    ensures r.Some? ==> r.value in rows && HasKey(r.value, k)
    ensures r.None? <==> forall u :: u in rows ==> !HasKey(u, k)
  {
    if |rows| == 0 then None
    else if HasKey(rows[0], k) then Some(rows[0])
    else Find(rows[1..], k)
  }

  /** In a table with unique keys, an e-mail lookup finds the one row with
      that e-mail, for every row. */
  lemma FindEveryEmail(u: Users)
    ensures Valid(u) ==> forall i :: 0 <= i < |u.rows| ==> Find(u.rows, ByEmail(u.rows[i].email)) == Some(u.rows[i])
  {
    if Valid(u) {
      forall i | 0 <= i < |u.rows|
        ensures Find(u.rows, ByEmail(u.rows[i].email)) == Some(u.rows[i])
      {
        FindUnique(u, i);
      }
    }
  }

  /** In a table with unique keys, a lookup finds the one row that has it. */
  lemma {:induction false} FindUnique(u: Users, i: nat)
    requires Valid(u) && i < |u.rows|
    ensures Find(u.rows, ByEmail(u.rows[i].email)) == Some(u.rows[i])
    ensures Find(u.rows, ById(u.rows[i].id)) == Some(u.rows[i])
    decreases i
  {
    if i > 0 {
      var tail := Users(u.rows[1..], u.nextId);
      assert tail.rows[i - 1] == u.rows[i];
      FindUnique(tail, i - 1);
    }
  }

  // -----------------------------------------------------------------------
  // POST /register

  /** Appending a user with a new e-mail under the next id keeps the table
      valid. */
  lemma AppendKeepsValid(users: Users, user: User)
    requires user.id == users.nextId
    requires forall u :: u in users.rows ==> u.email != user.email
    ensures Valid(users) ==> Valid(Users(users.rows + [user], users.nextId + 1))
  {
    var rows := users.rows + [user];
    if Valid(users) {
      forall i, j | 0 <= i < j < |rows|
        ensures rows[i].email != rows[j].email && rows[i].id != rows[j].id
      {
        if j == |rows| - 1 {
          assert rows[i] in users.rows;
        }
      }
    }
  }

  /** `POST /register`: 400 with the schema issues, 400 when the e-mail is
      taken, otherwise one new row holding the hash of the password (never
      the password) and a 200 answer with only `{id, name, email}`. */
  function Register(body: Value, isEmail: string -> bool, crypto: Crypto, salt: nat,
                    users: Users): (o: RegisterOutcome)
    ensures o.response.cookie == Untouched
    ensures !RegisterAccepts(body, isEmail) ==>
              o == RegisterOutcome(Response(400, Errors(RegisterIssues(body, isEmail)), Untouched), users)
    ensures RegisterAccepts(body, isEmail) && (exists u :: u in users.rows && u.email == StrAt(body, "email").value) ==>
              o == RegisterOutcome(Response(400, Message(EmailUsed), Untouched), users)
    ensures o.response.status == 200 <==>
              RegisterAccepts(body, isEmail)
              && forall u :: u in users.rows ==> u.email != StrAt(body, "email").value
    ensures o.response.status == 200 ==>
              && o.response.body.Fields?
              && var s := o.response.body.summary;
              && s.id == users.nextId
              && StrAt(body, "name") == Some(s.name) && StrAt(body, "email") == Some(s.email)
              && o.users == Users(users.rows + [User(s.id, s.name, s.email,
                                     crypto.hash(StrAt(body, "password").value, salt))],
                                  users.nextId + 1)
    ensures Valid(users) ==> Valid(o.users)
  {
    match ParseRegister(body, isEmail)
    case Err(issues) => RegisterOutcome(Response(400, Errors(issues), Untouched), users)
    case Ok(reg) =>
      if Find(users.rows, ByEmail(reg.email)).Some? then
        RegisterOutcome(Response(400, Message(EmailUsed), Untouched), users)
      else
        var user := User(users.nextId, reg.name, reg.email, crypto.hash(reg.password, salt));
        AppendKeepsValid(users, user);
        RegisterOutcome(Response(200, Fields(SummaryOf(user)), Untouched),
                        Users(users.rows + [user], users.nextId + 1))
  }

  // -----------------------------------------------------------------------
  // POST /login

  /** `POST /login`: 400 with the schema issues; the same 400 "Invalid
      credentials" for an unknown e-mail and for a wrong password;
      otherwise the user's summary and a 7-day cookie holding a token
      signed for the user's id. */
  function Login(body: Value, isEmail: string -> bool, crypto: Crypto, users: Users): (r: Response)
    ensures !LoginAccepts(body, isEmail) ==>
              r == Response(400, Errors(LoginIssues(body, isEmail)), Untouched)
    ensures LoginAccepts(body, isEmail) && (forall u :: u in users.rows ==> u.email != StrAt(body, "email").value) ==>
              r == CredentialsRefused
    ensures r.status == 200 || r.status == 400
    ensures r.status == 200 ==>
              && r.body.Wrapped?
              && (exists u :: && u in users.rows && u.email == StrAt(body, "email").value
                              && crypto.compare(StrAt(body, "password").value, u.passwordHash)
                              && r.body.user == SummaryOf(u)
                              && r.cookie == SetSession(crypto.sign(u.id), CookieMaxAgeMs))
    ensures r.status == 400 ==> r.cookie == Untouched
    ensures Valid(users) && LoginAccepts(body, isEmail) ==>
              forall i :: 0 <= i < |users.rows| && users.rows[i].email == StrAt(body, "email").value ==>
                r == (if crypto.compare(StrAt(body, "password").value, users.rows[i].passwordHash)
                      then Response(200, Wrapped(SummaryOf(users.rows[i])),
                                    SetSession(crypto.sign(users.rows[i].id), CookieMaxAgeMs))
                      else CredentialsRefused)
  {
    FindEveryEmail(users);
    match ParseLogin(body, isEmail)
    case Err(issues) => Response(400, Errors(issues), Untouched)
    case Ok(login) =>
      match Find(users.rows, ByEmail(login.email))
      case None => CredentialsRefused
      case Some(user) =>
        if !crypto.compare(login.password, user.passwordHash) then CredentialsRefused
        else Response(200, Wrapped(SummaryOf(user)), SetSession(crypto.sign(user.id), CookieMaxAgeMs))
  }

  /** A wrong password and an unknown e-mail get the very same answer, so a
      caller cannot tell which accounts exist. */
  lemma LoginFailuresIndistinguishable(unknown: Value, wrong: Value, isEmail: string -> bool,
                                       crypto: Crypto, users: Users, i: nat)
    requires Valid(users)
    requires LoginAccepts(unknown, isEmail) && LoginAccepts(wrong, isEmail)
    requires forall u :: u in users.rows ==> u.email != StrAt(unknown, "email").value
    requires i < |users.rows| && users.rows[i].email == StrAt(wrong, "email").value
    requires !crypto.compare(StrAt(wrong, "password").value, users.rows[i].passwordHash)
    ensures Login(unknown, isEmail, crypto, users) == Login(wrong, isEmail, crypto, users)
  {
    FindUnique(users, i);
  }

  // -----------------------------------------------------------------------
  // GET /isLoggedIn and POST /logout

  /** `GET /isLoggedIn` behind the guard: the live user for the token's id,
      or 401 when the guard refuses or the user no longer exists. */
  function IsLoggedIn(token: Option<string>, crypto: Crypto, users: Users): (r: Response)
    ensures r.cookie == Untouched
    ensures r.status == 200 || r.status == 401
    ensures Session.RequireAuth(token, crypto.verify).Reject? ==>
              r.body == Message(Session.RequireAuth(token, crypto.verify).message)
    ensures r.status == 200 <==>
              && Session.RequireAuth(token, crypto.verify).Proceed?
              && exists u :: u in users.rows && u.id == Session.RequireAuth(token, crypto.verify).userId
    ensures r.status == 200 ==>
              && r.body.Wrapped?
              && exists u :: u in users.rows && u.id == Session.RequireAuth(token, crypto.verify).userId
                             && r.body.user == SummaryOf(u)
    ensures Session.RequireAuth(token, crypto.verify).Proceed? && r.status == 401 ==>
              r.body == Message(UserNotFound)
  {
    match Session.RequireAuth(token, crypto.verify)
    case Reject(status, message) => Response(status, Message(message), Untouched)
    case Proceed(userId) =>
      match Find(users.rows, ById(userId))
      case None => Response(401, Message(UserNotFound), Untouched)
      case Some(user) => Response(200, Wrapped(SummaryOf(user)), Untouched)
  }

  /** `POST /logout`: tells the browser to drop the cookie and answers
      `{ok: true}`; it reads and writes no table. */
  function Logout(): (r: Response)
    ensures r.status == 200 && r.body == LoggedOut(true)
    ensures r.cookie == ClearSession
  {
    Response(200, LoggedOut(true), ClearSession)
  }

  /** The browser's session cookie after it receives a response. */
  function Browser(jar: Option<string>, c: CookieAction): Option<string>
  {
    match c
    case Untouched => jar
    case SetSession(token, _) => Some(token)
    case ClearSession => None
  }

  // -----------------------------------------------------------------------
  // Whole flows

  /** Sign-up then log-in: under `compare(p, hash(p, salt))`, a successful
      registration followed by a login with the same body succeeds and
      signs a token for the new user's id; under `verify(sign(id)) == id`,
      that token makes `isLoggedIn` answer with the new user. */
  lemma RegisterLoginSession(body: Value, isEmail: string -> bool, crypto: Crypto, salt: nat,
                             users: Users)
    requires Valid(users)
    requires forall p, s :: crypto.compare(p, crypto.hash(p, s))
    requires forall id: nat :: crypto.verify(crypto.sign(id)) == Some(id)
    requires forall id: nat :: crypto.sign(id) != ""
    requires Register(body, isEmail, crypto, salt, users).response.status == 200
    ensures var users' := Register(body, isEmail, crypto, salt, users).users;
            var login := Login(body, isEmail, crypto, users');
            var summary := Summary(users.nextId, StrAt(body, "name").value, StrAt(body, "email").value);
            && login == Response(200, Wrapped(summary), SetSession(crypto.sign(users.nextId), CookieMaxAgeMs))
            && IsLoggedIn(Browser(None, login.cookie), crypto, users') == Response(200, Wrapped(summary), Untouched)
  {
    var users' := Register(body, isEmail, crypto, salt, users).users;
    RegisterAcceptedLoginAccepted(body, isEmail);
    var n := |users.rows|;
    assert users'.rows[n].email == StrAt(body, "email").value;
    FindUnique(users', n);
  }

  /** After logout the browser holds no token, so `isLoggedIn` refuses. */
  lemma LogoutEndsBrowserSession(jar: Option<string>, crypto: Crypto, users: Users)
    ensures IsLoggedIn(Browser(jar, Logout().cookie), crypto, users)
            == Response(401, Message(Session.NotAuthenticated), Untouched)
  {
  }

  /** Logout revokes nothing on the server: a copy of the token taken
      before logout still opens the session for as long as it verifies. */
  lemma TokenOutlivesLogout(token: string, crypto: Crypto, users: Users, i: nat)
    requires Valid(users) && i < |users.rows|
    requires token != "" && crypto.verify(token) == Some(users.rows[i].id)
    ensures Logout().cookie == ClearSession
    ensures IsLoggedIn(Some(token), crypto, users) == Response(200, Wrapped(SummaryOf(users.rows[i])), Untouched)
  {
    FindUnique(users, i);
  }
}
