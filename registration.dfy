/**
 * auth/register.php: the registration form post. Name, student id and
 * email are trimmed (the password is not), the checks run in a fixed
 * order and the first failing one decides the redirect, and a post that
 * passes them all inserts one user with the hashed password.
 * `password_hash` is the parameter `hash`.
 */
module Registration {
  import opened Wrappers
  import opened Store

  datatype RegisterForm = RegisterForm(verb: string, fullName: string, studentId: string, email: string,
                                       password: string, confirm: string, department: string, level: string)

  /** A form endpoint's redirect and the users table it leaves behind. */
  datatype AccountResult = AccountResult(to: Redirect, users: UserTable)

  /** No two users share an email, and no two share a student id (users without one never clash). */
  predicate UniqueAccounts(rows: seq<User>)
  {
    forall i, j :: 0 <= i < j < |rows| ==>
      rows[i].email != rows[j].email && (rows[i].studentId.None? || rows[i].studentId != rows[j].studentId)
  }

  /** `SELECT id FROM users WHERE email = ? OR student_id = ?` finds a row. */
  predicate Registered(rows: seq<User>, email: string, studentId: string)
  {
    exists k :: 0 <= k < |rows| && (rows[k].email == email || rows[k].studentId == Some(studentId))
  }

  /** The check of line 15, on the trimmed name, student id and email. */
  predicate Filled(q: RegisterForm)
  {
    !Empty(PhpTrim(q.fullName)) && !Empty(PhpTrim(q.studentId)) && !Empty(PhpTrim(q.email))
    && !Empty(q.password) && !Empty(q.department) && !Empty(q.level)
  }

  /** The three checks before the database is consulted: fields, confirmation, length. */
  predicate Acceptable(q: RegisterForm)
  {
    Filled(q) && q.password == q.confirm && |q.password| >= 6
  }

  /** The user line 46 inserts. */
  function NewUser(q: RegisterForm, id: int, hash: string -> string): User
  {
    User(id, PhpTrim(q.fullName), Some(PhpTrim(q.studentId)), PhpTrim(q.email), hash(q.password),
         Some(q.department), Some(q.level), None)
  }

  function RegisterSpec(q: RegisterForm, t: UserTable, hash: string -> string, fails: bool): AccountResult
  {
    if q.verb != "POST" then AccountResult(Redirect("../register.php"), t)
    else if !Filled(q) then AccountResult(Redirect("../register.php?error=Please fill in all fields"), t)
    else if q.password != q.confirm then AccountResult(Redirect("../register.php?error=Passwords do not match"), t)
    else if |q.password| < 6 then AccountResult(Redirect("../register.php?error=Password must be at least 6 characters"), t)
    else if fails then AccountResult(Redirect("../register.php?error=Registration failed. Please try again."), t)
    else if Registered(t.rows, PhpTrim(q.email), PhpTrim(q.studentId)) then
      AccountResult(Redirect("../register.php?error=Email or Student ID already registered"), t)
    else AccountResult(Redirect("../index.php?success=Account created successfully! Please login."),
                       UserTable(t.rows + [NewUser(q, t.next, hash)], t.next + 1))
  }

  method Register(db: Database, q: RegisterForm, hash: string -> string, fails: bool) returns (to: Redirect)
    modifies db`users
    ensures AccountResult(to, db.users) == RegisterSpec(q, old(db.users), hash, fails)
  {
    if q.verb != "POST" {
      return Redirect("../register.php");
    }
    var name := PhpTrim(q.fullName);
    var studentId := PhpTrim(q.studentId);
    var email := PhpTrim(q.email);
    if Empty(name) || Empty(studentId) || Empty(email) || Empty(q.password) || Empty(q.department) || Empty(q.level) {
      return Redirect("../register.php?error=Please fill in all fields");
    }
    if q.password != q.confirm {
      return Redirect("../register.php?error=Passwords do not match");
    }
    if |q.password| < 6 {
      return Redirect("../register.php?error=Password must be at least 6 characters");
    }
    if fails {
      return Redirect("../register.php?error=Registration failed. Please try again.");
    }
    if Registered(db.users.rows, email, studentId) {
      return Redirect("../register.php?error=Email or Student ID already registered");
    }
    var user := User(db.users.next, name, Some(studentId), email, hash(q.password), Some(q.department), Some(q.level), None);
    db.users := UserTable(db.users.rows + [user], db.users.next + 1);
    to := Redirect("../index.php?success=Account created successfully! Please login.");
  }

  /**
   * The checks run in order and the first failing one names the redirect:
   * an empty field before a mismatched confirmation, before a short
   * password, before an already registered email or student id.
   */
  lemma CheckOrder(q: RegisterForm, t: UserTable, hash: string -> string)
    requires q.verb == "POST"
    ensures !Filled(q) ==> RegisterSpec(q, t, hash, false).to == Redirect("../register.php?error=Please fill in all fields")
    ensures Filled(q) && q.password != q.confirm ==>
      RegisterSpec(q, t, hash, false).to == Redirect("../register.php?error=Passwords do not match")
    ensures Filled(q) && q.password == q.confirm && |q.password| < 6 ==>
      RegisterSpec(q, t, hash, false).to == Redirect("../register.php?error=Password must be at least 6 characters")
    ensures Acceptable(q) && Registered(t.rows, PhpTrim(q.email), PhpTrim(q.studentId)) ==>
      RegisterSpec(q, t, hash, false).to == Redirect("../register.php?error=Email or Student ID already registered")
  {
  }

  /**
   * A user is inserted exactly when every check passes and the database
   * raises nothing; the new user carries the trimmed name, student id and
   * email, the untrimmed password's hash and no session token.
   */
  lemma RegisterChanges(q: RegisterForm, t: UserTable, hash: string -> string, fails: bool)
    ensures var r := RegisterSpec(q, t, hash, fails);
      r.users != t <==> q.verb == "POST" && Acceptable(q) && !fails && !Registered(t.rows, PhpTrim(q.email), PhpTrim(q.studentId))
    ensures var r := RegisterSpec(q, t, hash, fails);
      r.users != t ==>
        |r.users.rows| == |t.rows| + 1 && r.users.rows[..|t.rows|] == t.rows
        && var u := r.users.rows[|t.rows|];
        u.id == t.next && u.name == PhpTrim(q.fullName) && u.studentId == Some(PhpTrim(q.studentId))
        && u.email == PhpTrim(q.email) && u.password == hash(q.password) && u.token == None
  {
    var r := RegisterSpec(q, t, hash, fails);
    if r.users != t {
      assert r.users.rows[..|t.rows|] == t.rows;
    }
  }

  /** Registration keeps emails and student ids unique. */
  lemma RegisterKeepsUnique(q: RegisterForm, t: UserTable, hash: string -> string, fails: bool)
    requires UniqueAccounts(t.rows)
    ensures UniqueAccounts(RegisterSpec(q, t, hash, fails).users.rows)
  {
    var r := RegisterSpec(q, t, hash, fails);
    if r.users != t {
      var rows := r.users.rows;
      forall i, j | 0 <= i < j < |rows|
        ensures rows[i].email != rows[j].email && (rows[i].studentId.None? || rows[i].studentId != rows[j].studentId)
      {
        if j == |t.rows| {
          assert rows[i] == t.rows[i];
        }
      }
    }
  }
}
