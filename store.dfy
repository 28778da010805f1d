/**
 * The server's MySQL tables as the PHP endpoints see them: the income and
 * expense tables, the budgets table and the users table, each with its
 * auto-increment counter. SQL NULL is `None`. Queries that the endpoints
 * hand to the database (`COUNT(*)`, `SELECT … WHERE`) are written here as
 * the predicates they evaluate.
 */
module Store {
  import opened Wrappers
  import opened Finance

  /** A row of the `income` or `expenses` table. */
  datatype Row = Row(id: int, user: int, amount: real, description: string, category: Option<string>, date: string)

  /** A transaction table and its next auto-increment id. */
  datatype Table = Table(rows: seq<Row>, next: int)
  {
    /** `INSERT INTO … (user_id, amount, description, category, date)`: the new row takes the next id. */
    function Insert(user: int, amount: real, description: string, category: Option<string>, date: string): Table
    {
      Table(rows + [Row(next, user, amount, description, category, date)], next + 1)
    }
  }

  datatype Kind = Income | Expenses

  /** `$type === 'income' ? 'income' : 'expenses'`: only the exact string "income" selects the income table. */
  function KindOf(kind: Option<string>): (k: Kind)
    ensures k == Income <==> kind == Some("income")
  {
    if kind == Some("income") then Income else Expenses
  }

  /** The two transaction tables. */
  datatype Ledger = Ledger(income: Table, expenses: Table)
  {
    function Rows(kind: Kind): seq<Row>
    {
      if kind == Income then income.rows else expenses.rows
    }

    /** The ledger after one insert into the table `kind`. */
    function Insert(kind: Kind, user: int, amount: real, description: string, category: Option<string>, date: string): Ledger
    {
      if kind == Income then this.(income := income.Insert(user, amount, description, category, date))
      else this.(expenses := expenses.Insert(user, amount, description, category, date))
    }
  }

  /** A row of the `budgets` table. */
  datatype BudgetRow = BudgetRow(id: int, user: int, category: string, amount: real, period: string)

  /** The `budgets` table and its next auto-increment id. */
  datatype BudgetTable = BudgetTable(rows: seq<BudgetRow>, next: int)
  {
    /** `INSERT INTO budgets (user_id, category, amount, period)`: the new row takes the next id. */
    function Insert(user: int, category: string, amount: real, period: string): BudgetTable
    {
      BudgetTable(rows + [BudgetRow(next, user, category, amount, period)], next + 1)
    }
  }

  /**
   * A row of the `users` table. The registration page fills the student id,
   * department and level; the JSON registration leaves them NULL.
   */
  datatype User = User(id: int, name: string, studentId: Option<string>, email: string, password: string,
                       department: Option<string>, level: Option<string>, token: Option<string>)

  /** The `users` table and its next auto-increment id. */
  datatype UserTable = UserTable(rows: seq<User>, next: int)

  /** Where a form endpoint sends the browser, with its `error=` or `success=` message. */
  datatype Redirect = Redirect(location: string)

  /** PHP `empty()` on a posted string: the empty string and "0" are empty. */
  predicate Empty(s: string)
  {
    s == "" || s == "0"
  }

  /** `SELECT id FROM users WHERE session_token = ?`: the first user holding the token. */
  function TokenOwner(users: seq<User>, token: string): (r: Option<int>)
    ensures r.None? <==> forall k :: 0 <= k < |users| ==> users[k].token != Some(token)
    ensures r.Some? ==> exists k :: 0 <= k < |users| && users[k].token == Some(token) && users[k].id == r.value
  {
    if users == [] then None
    else if users[0].token == Some(token) then Some(users[0].id)
    else
      var r := TokenOwner(users[1..], token);
      assert forall k :: 1 <= k < |users| ==> users[k] == users[1..][k - 1];
      r
  }

  /** The whitespace PHP's `trim` removes. */
  const PhpSpace: set<char> := {' ', '\t', '\n', '\r', '\0', '\U{B}'}

  function PhpTrimStart(s: string): (r: string)
    ensures |r| <= |s| && r == s[|s| - |r|..]
    ensures forall i :: 0 <= i < |s| - |r| ==> s[i] in PhpSpace
    ensures r == [] || r[0] !in PhpSpace
  {
    if s != [] && s[0] in PhpSpace then PhpTrimStart(s[1..]) else s
  }

  function PhpTrimEnd(s: string): (r: string)
    ensures |r| <= |s| && r == s[..|r|]
    ensures forall i :: |r| <= i < |s| ==> s[i] in PhpSpace
    ensures r == [] || r[|r| - 1] !in PhpSpace
  {
    if s != [] && s[|s| - 1] in PhpSpace then PhpTrimEnd(s[..|s| - 1]) else s
  }

  /** PHP's `trim`: drops the PHP whitespace at both ends and nothing else. */
  function PhpTrim(s: string): (r: string)
    ensures r == [] || (r[0] !in PhpSpace && r[|r| - 1] !in PhpSpace)
    ensures |r| <= |s|
  {
    PhpTrimEnd(PhpTrimStart(s))
  }

  /** The server's database connection: every table and its counter. */
  class Database {
    var income: Table
    var expenses: Table
    var budgets: BudgetTable
    var users: UserTable

    constructor()
      ensures income == Table([], 1) && expenses == Table([], 1)
      ensures budgets == BudgetTable([], 1) && users == UserTable([], 1)
    {
      income := Table([], 1);
      expenses := Table([], 1);
      budgets := BudgetTable([], 1);
      users := UserTable([], 1);
    }

    function Tables(): Ledger
      reads this
    {
      Ledger(income, expenses)
    }

    /** Replaces both transaction tables, as a commit of a batch or a rollback does. */
    method SetLedger(l: Ledger)
      modifies this`income, this`expenses
      ensures Tables() == l
    {
      income := l.income;
      expenses := l.expenses;
    }

    /** One `INSERT` into the income or expenses table. */
    method InsertRow(kind: Kind, user: int, amount: real, description: string, category: Option<string>, date: string)
      modifies this`income, this`expenses
      ensures Tables() == old(Tables()).Insert(kind, user, amount, description, category, date)
    {
      if kind == Income {
        income := income.Insert(user, amount, description, category, date);
      } else {
        expenses := expenses.Insert(user, amount, description, category, date);
      }
    }
  }
}
