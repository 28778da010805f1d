/**
 * api/auth.php: the JSON login and registration endpoint. A login that
 * finds the email and verifies the password stores a fresh session token
 * for that user; a registration inserts a user holding a fresh token.
 * `password_hash`, `password_verify` and `random_bytes(32)` are parameters.
 */
module AuthApi {
  import opened Wrappers
  import opened Store
  import opened Server
  import opened Registration

  newtype byte = x: int | 0 <= x < 256

  /** A lower-case hexadecimal digit. */
  predicate IsHexDigit(c: char)
  {
    '0' <= c <= '9' || 'a' <= c <= 'f'
  }

  /** The digit of a nibble. */
  function HexDigit(v: int): (c: char)
    requires 0 <= v < 16
    ensures IsHexDigit(c)
  {
    if v < 10 then ('0' as int + v) as char else ('a' as int + v - 10) as char
  }

  /** The value of a digit, the inverse of `HexDigit`. */
  function DigitValue(c: char): (v: int)
    requires IsHexDigit(c)
    ensures 0 <= v < 16 && HexDigit(v) == c
  {
    if c <= '9' then c as int - '0' as int else c as int - 'a' as int + 10
  }

  /** `bin2hex`: two lower-case hexadecimal digits per byte, high nibble first. */
  function Bin2Hex(bytes: seq<byte>): (s: string)
    ensures |s| == 2 * |bytes|
    ensures forall k :: 0 <= k < |s| ==> IsHexDigit(s[k])
  {
    if bytes == [] then ""
    else [HexDigit(bytes[0] as int / 16), HexDigit(bytes[0] as int % 16)] + Bin2Hex(bytes[1..])
  }

  /** `hex2bin`, the inverse of `Bin2Hex`. */
  function Hex2Bin(s: string): seq<byte>
    requires |s| % 2 == 0
    requires forall k :: 0 <= k < |s| ==> IsHexDigit(s[k])
  {
    if s == [] then [] else [(DigitValue(s[0]) * 16 + DigitValue(s[1])) as byte] + Hex2Bin(s[2..])
  }

  /** Decoding a token gives back the bytes it was made from, so distinct bytes give distinct tokens. */
  lemma {:induction false} HexRoundTrip(bytes: seq<byte>)
    ensures Hex2Bin(Bin2Hex(bytes)) == bytes
  {
    if bytes != [] {
      var s := Bin2Hex(bytes);
      var b := bytes[0] as int;
      assert DigitValue(HexDigit(b / 16)) == b / 16 && DigitValue(HexDigit(b % 16)) == b % 16;
      assert s[2..] == Bin2Hex(bytes[1..]);
      HexRoundTrip(bytes[1..]);
    }
  }

  /** `generateToken`: 32 random bytes as 64 lower-case hexadecimal digits. */
  function GenerateToken(random: seq<byte>): (t: string)
    requires |random| == 32
    ensures |t| == 64
    ensures forall k :: 0 <= k < |t| ==> 'a' <= t[k] <= 'f' || '0' <= t[k] <= '9'
  {
    Bin2Hex(random)
  }

  /** The decoded JSON body; a key that is absent is `None` (`?? ''` reads it as ""). */
  datatype AuthInput = AuthInput(action: Option<string>, name: Option<string>, email: Option<string>, password: Option<string>)

  datatype AuthRequest = AuthRequest(verb: string, input: AuthInput)

  /**
   * What the endpoint depends on beyond the users table: the hash and
   * verify functions, the bytes `random_bytes(32)` returns, whether the
   * connection fails, and whether a statement throws.
   */
  datatype AuthEnv = AuthEnv(hash: string -> string, verify: (string, string) -> bool, random: seq<byte>,
                             offline: bool, fails: bool)

  datatype AuthResponse = AuthResponse(reply: Reply, users: UserTable)

  /** `SELECT … FROM users WHERE email = ?` and `fetch()`: the first user with that email. */
  function FirstByEmail(rows: seq<User>, email: string): (r: Option<User>)
    ensures r.None? <==> forall k :: 0 <= k < |rows| ==> rows[k].email != email
    ensures r.Some? ==> r.value in rows && r.value.email == email
  {
    if rows == [] then None
    else if rows[0].email == email then Some(rows[0])
    else
      var r := FirstByEmail(rows[1..], email);
      assert forall k :: 1 <= k < |rows| ==> rows[k] == rows[1..][k - 1];
      r
  }

  /** `UPDATE users SET session_token = ? WHERE id = ?`. */
  function WithToken(rows: seq<User>, id: int, token: string): seq<User>
  {
    seq(|rows|, k requires 0 <= k < |rows| => if rows[k].id == id then rows[k].(token := Some(token)) else rows[k])
  }

  /** `handleLogin`. */
  function LoginSpec(input: AuthInput, t: UserTable, env: AuthEnv): AuthResponse
    requires |env.random| == 32
  {
    var email := input.email.GetOr("");
    var password := input.password.GetOr("");
    if Empty(email) || Empty(password) then AuthResponse(Failure("Email and password required"), t)
    else if env.fails then AuthResponse(Failure("Login failed"), t)
    else match FirstByEmail(t.rows, email)
      case None => AuthResponse(Failure("Invalid credentials"), t)
      case Some(u) =>
        if !env.verify(password, u.password) then AuthResponse(Failure("Invalid credentials"), t)
        else
          var token := GenerateToken(env.random);
          AuthResponse(Session(u.id, u.name, u.email, token), t.(rows := WithToken(t.rows, u.id, token)))
  }

  /** `handleRegister`: only the email must be new. */
  function SignUpSpec(input: AuthInput, t: UserTable, env: AuthEnv): AuthResponse
    requires |env.random| == 32
  {
    var name := input.name.GetOr("");
    var email := input.email.GetOr("");
    var password := input.password.GetOr("");
    if Empty(name) || Empty(email) || Empty(password) then AuthResponse(Failure("All fields required"), t)
    else if |password| < 6 then AuthResponse(Failure("Password must be at least 6 characters"), t)
    else if env.fails then AuthResponse(Failure("Registration failed"), t)
    else if FirstByEmail(t.rows, email).Some? then AuthResponse(Failure("Email already registered"), t)
    else
      var token := GenerateToken(env.random);
      AuthResponse(Session(t.next, name, email, token),
                   UserTable(t.rows + [User(t.next, name, None, email, env.hash(password), None, None, Some(token))], t.next + 1))
  }

  /** The top level: the connection, then the method, then the action; a POST without an action prints nothing. */
  function AuthSpec(q: AuthRequest, t: UserTable, env: AuthEnv): AuthResponse
    requires |env.random| == 32
  {
    if env.offline then AuthResponse(Failure("Database connection failed"), t)
    else if q.verb != "POST" then AuthResponse(Failure("Method not allowed"), t)
    else match q.input.action
      case None => AuthResponse(Silent, t)
      case Some(a) =>
        if a == "login" then LoginSpec(q.input, t, env)
        else if a == "register" then SignUpSpec(q.input, t, env)
        else if a == "logout" then AuthResponse(Done("Logged out successfully"), t)
        else AuthResponse(Failure("Invalid action"), t)
  }

  method Login(db: Database, input: AuthInput, env: AuthEnv) returns (reply: Reply)
    requires |env.random| == 32
    modifies db`users
    ensures AuthResponse(reply, db.users) == LoginSpec(input, old(db.users), env)
  {
    var email := input.email.GetOr("");
    var password := input.password.GetOr("");
    if Empty(email) || Empty(password) {
      return Failure("Email and password required");
    }
    if env.fails {
      return Failure("Login failed");
    }
    var found := FirstByEmail(db.users.rows, email);
    if found.None? || !env.verify(password, found.value.password) {
      return Failure("Invalid credentials");
    }
    var u := found.value;
    var token := GenerateToken(env.random);
    db.users := db.users.(rows := WithToken(db.users.rows, u.id, token));
    reply := Session(u.id, u.name, u.email, token);
  }

  method SignUp(db: Database, input: AuthInput, env: AuthEnv) returns (reply: Reply)
    requires |env.random| == 32
    modifies db`users
    ensures AuthResponse(reply, db.users) == SignUpSpec(input, old(db.users), env)
  {
    var name := input.name.GetOr("");
    var email := input.email.GetOr("");
    var password := input.password.GetOr("");
    if Empty(name) || Empty(email) || Empty(password) {
      return Failure("All fields required");
    }
    if |password| < 6 {
      return Failure("Password must be at least 6 characters");
    }
    if env.fails {
      return Failure("Registration failed");
    }
    if FirstByEmail(db.users.rows, email).Some? {
      return Failure("Email already registered");
    }
    var token := GenerateToken(env.random);
    var id := db.users.next;
    db.users := UserTable(db.users.rows + [User(id, name, None, email, env.hash(password), None, None, Some(token))], id + 1);
    reply := Session(id, name, email, token);
  }

  method HandleAuth(db: Database, q: AuthRequest, env: AuthEnv) returns (reply: Reply)
    requires |env.random| == 32
    modifies db`users
    ensures AuthResponse(reply, db.users) == AuthSpec(q, old(db.users), env)
  {
    if env.offline {
      return Failure("Database connection failed");
    }
    if q.verb != "POST" {
      return Failure("Method not allowed");
    }
    if q.input.action.None? {
      return Silent;
    }
    var a := q.input.action.value;
    if a == "login" {
      reply := Login(db, q.input, env);
    } else if a == "register" {
      reply := SignUp(db, q.input, env);
    } else if a == "logout" {
      reply := Done("Logged out successfully");
    } else {
      reply := Failure("Invalid action");
    }
  }

  /** A request that is not a POST, carries an unknown action or asks to log out leaves the users table alone. */
  lemma DispatchChangesNothing(q: AuthRequest, t: UserTable, env: AuthEnv)
    requires |env.random| == 32
    requires q.verb != "POST" || q.input.action.None? || q.input.action.value !in {"login", "register"}
    ensures AuthSpec(q, t, env).users == t
    ensures !env.offline && q.verb != "POST" ==> AuthSpec(q, t, env).reply == Failure("Method not allowed")
    ensures !env.offline && q.verb == "POST" && q.input.action.Some? && q.input.action.value !in {"login", "register", "logout"} ==>
      AuthSpec(q, t, env).reply == Failure("Invalid action")
  {
  }

  /**
   * A login stores a token exactly when the email and password are given,
   * a user with that email exists and the password verifies against the
   * first such user's hash; then that user's rows gain the new 64-digit
   * token and nothing else in the table changes.
   */
  lemma LoginTokenUpdate(input: AuthInput, t: UserTable, env: AuthEnv)
    requires |env.random| == 32
    ensures var r := LoginSpec(input, t, env);
      r.reply.Session? <==>
        !Empty(input.email.GetOr("")) && !Empty(input.password.GetOr("")) && !env.fails
        && FirstByEmail(t.rows, input.email.GetOr("")).Some?
        && env.verify(input.password.GetOr(""), FirstByEmail(t.rows, input.email.GetOr("")).value.password)
    ensures var r := LoginSpec(input, t, env);
      !r.reply.Session? ==> r.users == t
    ensures var r := LoginSpec(input, t, env);
      r.reply.Session? ==>
        |r.reply.token| == 64 && r.users.next == t.next && |r.users.rows| == |t.rows|
        && forall k :: 0 <= k < |t.rows| ==>
          r.users.rows[k] == (if t.rows[k].id == r.reply.user then t.rows[k].(token := Some(r.reply.token)) else t.rows[k])
  {
  }

  /**
   * A registration inserts a user exactly when name, email and a password
   * of at least 6 characters are given, the database raises nothing and
   * the email is new; the user is appended with the password's hash and
   * the token the reply carries.
   */
  lemma SignUpChanges(input: AuthInput, t: UserTable, env: AuthEnv)
    requires |env.random| == 32
    ensures var r := SignUpSpec(input, t, env);
      r.users != t <==>
        !Empty(input.name.GetOr("")) && !Empty(input.email.GetOr("")) && !Empty(input.password.GetOr(""))
        && |input.password.GetOr("")| >= 6 && !env.fails
        && forall k :: 0 <= k < |t.rows| ==> t.rows[k].email != input.email.GetOr("")
    ensures var r := SignUpSpec(input, t, env);
      r.users != t ==>
        r.reply.Session? && r.users.rows == t.rows + [User(t.next, input.name.GetOr(""), None, input.email.GetOr(""),
                                                           env.hash(input.password.GetOr("")), None, None, Some(r.reply.token))]
        && r.reply.user == t.next
  {
    var r := SignUpSpec(input, t, env);
    if r.users != t {
      assert |r.users.rows| == |t.rows| + 1;
    }
  }

  /** The JSON registration keeps emails and student ids unique: the new user has a new email and no student id. */
  lemma SignUpKeepsUnique(input: AuthInput, t: UserTable, env: AuthEnv)
    requires |env.random| == 32
    requires UniqueAccounts(t.rows)
    ensures UniqueAccounts(SignUpSpec(input, t, env).users.rows)
  {
    var r := SignUpSpec(input, t, env);
    if r.users != t {
      var rows := r.users.rows;
      forall i, j | 0 <= i < j < |rows|
        ensures rows[i].email != rows[j].email && (rows[i].studentId.None? || rows[i].studentId != rows[j].studentId)
      {
        if j == |t.rows| {
          assert rows[i] == t.rows[i];
        }
      }
    }
  }

  /** A login only rewrites session tokens, so it keeps emails and student ids unique. */
  lemma LoginKeepsUnique(input: AuthInput, t: UserTable, env: AuthEnv)
    requires |env.random| == 32
    requires UniqueAccounts(t.rows)
    ensures UniqueAccounts(LoginSpec(input, t, env).users.rows)
  {
    var r := LoginSpec(input, t, env);
    if r.users != t {
      var rows := r.users.rows;
      forall i, j | 0 <= i < j < |rows|
        ensures rows[i].email != rows[j].email && (rows[i].studentId.None? || rows[i].studentId != rows[j].studentId)
      {
        assert rows[i].email == t.rows[i].email && rows[i].studentId == t.rows[i].studentId;
        assert rows[j].email == t.rows[j].email && rows[j].studentId == t.rows[j].studentId;
      }
    }
  }
}
