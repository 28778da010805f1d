/**
 * api/add_budget.php and api/delete_budget.php: the budget page's form
 * posts. Each answers with a redirect back to budget.php carrying an
 * `error=` or `success=` message. The session user is a parameter (the
 * login check runs before either script), and `fails` says whether the
 * database throws on the script's statements.
 */
module BudgetForms {
  import opened Wrappers
  import opened Store

  /** The posted fields; `amount` is `floatval($_POST['amount'])`. */
  datatype BudgetForm = BudgetForm(verb: string, category: string, amount: real, period: string)

  /** A form endpoint's redirect and the budgets table it leaves behind. */
  datatype BudgetResult = BudgetResult(to: Redirect, budgets: BudgetTable)

  /** `SELECT id FROM budgets WHERE user_id = ? AND category = ?` finds a row. */
  predicate HasBudget(rows: seq<BudgetRow>, user: int, category: string)
  {
    exists k :: 0 <= k < |rows| && rows[k].user == user && rows[k].category == category
  }

  /** At most one budget per user and category. */
  predicate UniqueBudgets(rows: seq<BudgetRow>)
  {
    forall i, j :: 0 <= i < j < |rows| ==> rows[i].user != rows[j].user || rows[i].category != rows[j].category
  }

  /** The checks of lines 11-14: a non-empty category and period and a positive amount. */
  predicate ValidBudget(q: BudgetForm)
  {
    !Empty(q.category) && q.amount > 0.0 && !Empty(q.period)
  }

  function AddBudgetSpec(q: BudgetForm, t: BudgetTable, user: int, fails: bool): BudgetResult
  {
    if q.verb != "POST" then BudgetResult(Redirect("../budget.php"), t)
    else if !ValidBudget(q) then BudgetResult(Redirect("../budget.php?error=Please fill in all fields correctly"), t)
    else if fails then BudgetResult(Redirect("../budget.php?error=Failed to add budget"), t)
    else if HasBudget(t.rows, user, q.category) then
      BudgetResult(Redirect("../budget.php?error=Budget already exists for this category"), t)
    else BudgetResult(Redirect("../budget.php?success=Budget added successfully"), t.Insert(user, q.category, q.amount, q.period))
  }

  method AddBudget(db: Database, user: int, q: BudgetForm, fails: bool) returns (to: Redirect)
    modifies db`budgets
    ensures BudgetResult(to, db.budgets) == AddBudgetSpec(q, old(db.budgets), user, fails)
  {
    if q.verb != "POST" {
      return Redirect("../budget.php");
    }
    if Empty(q.category) || q.amount <= 0.0 || Empty(q.period) {
      return Redirect("../budget.php?error=Please fill in all fields correctly");
    }
    if fails {
      return Redirect("../budget.php?error=Failed to add budget");
    }
    if HasBudget(db.budgets.rows, user, q.category) {
      return Redirect("../budget.php?error=Budget already exists for this category");
    }
    db.budgets := db.budgets.Insert(user, q.category, q.amount, q.period);
    to := Redirect("../budget.php?success=Budget added successfully");
  }

  /**
   * The table changes exactly when a valid POST meets no database error and
   * no budget of the user for that category; then exactly one row of the
   * user with the posted category, amount and period is appended.
   */
  lemma AddBudgetChanges(q: BudgetForm, t: BudgetTable, user: int, fails: bool)
    ensures var r := AddBudgetSpec(q, t, user, fails);
      r.budgets != t <==> (q.verb == "POST" && ValidBudget(q) && !fails && !HasBudget(t.rows, user, q.category))
    ensures var r := AddBudgetSpec(q, t, user, fails);
      r.budgets != t ==>
        r.budgets.rows == t.rows + [BudgetRow(t.next, user, q.category, q.amount, q.period)]
        && r.to == Redirect("../budget.php?success=Budget added successfully")
  {
    var r := AddBudgetSpec(q, t, user, fails);
    if q.verb == "POST" && ValidBudget(q) && !fails && !HasBudget(t.rows, user, q.category) {
      assert |r.budgets.rows| == |t.rows| + 1;
    }
  }

  /** A POST failing the field checks is refused before the duplicate check, whatever the table holds. */
  lemma InvalidBudgetRefused(q: BudgetForm, t: BudgetTable, user: int, fails: bool)
    requires q.verb == "POST"
    requires Empty(q.category) || q.amount <= 0.0 || Empty(q.period)
    ensures AddBudgetSpec(q, t, user, fails) == BudgetResult(Redirect("../budget.php?error=Please fill in all fields correctly"), t)
  {
  }

  /** A valid POST for a category the user already budgets is refused and changes nothing. */
  lemma ExistingBudgetRefused(q: BudgetForm, t: BudgetTable, user: int)
    requires q.verb == "POST" && ValidBudget(q)
    requires exists k :: 0 <= k < |t.rows| && t.rows[k].user == user && t.rows[k].category == q.category
    ensures AddBudgetSpec(q, t, user, false) == BudgetResult(Redirect("../budget.php?error=Budget already exists for this category"), t)
  {
  }

  /** On this path the table keeps at most one budget per user and category. */
  lemma AddBudgetKeepsUnique(q: BudgetForm, t: BudgetTable, user: int, fails: bool)
    requires UniqueBudgets(t.rows)
    ensures UniqueBudgets(AddBudgetSpec(q, t, user, fails).budgets.rows)
  {
    var r := AddBudgetSpec(q, t, user, fails);
    if r.budgets != t {
      var rows := r.budgets.rows;
      forall i, j | 0 <= i < j < |rows|
        ensures rows[i].user != rows[j].user || rows[i].category != rows[j].category
      {
        if j == |t.rows| {
          assert rows[i] == t.rows[i];
        }
      }
    }
  }

  /** `DELETE FROM budgets WHERE id = ? AND user_id = ?`: the rows kept, in their order. */
  function Kept(rows: seq<BudgetRow>, id: int, user: int): (r: seq<BudgetRow>)
    ensures forall b :: b in r <==> b in rows && !(b.id == id && b.user == user)
    ensures |r| <= |rows|
  {
    if rows == [] then []
    else if rows[0].id == id && rows[0].user == user then Kept(rows[1..], id, user)
    else [rows[0]] + Kept(rows[1..], id, user)
  }

  /** The budgets of `user`, in table order. */
  function BudgetsOf(rows: seq<BudgetRow>, user: int): (r: seq<BudgetRow>)
    ensures forall b :: b in r <==> b in rows && b.user == user
  {
    if rows == [] then []
    else if rows[0].user == user then [rows[0]] + BudgetsOf(rows[1..], user)
    else BudgetsOf(rows[1..], user)
  }

  /** The delete link; `id` is `intval($_GET['id'])` when the parameter is set. */
  function DeleteBudgetSpec(id: Option<int>, t: BudgetTable, user: int, fails: bool): BudgetResult
  {
    if id.None? then BudgetResult(Redirect("../budget.php"), t)
    else if fails then BudgetResult(Redirect("../budget.php?error=Failed to delete budget"), t)
    else BudgetResult(Redirect("../budget.php?success=Budget deleted successfully"), t.(rows := Kept(t.rows, id.value, user)))
  }

  method DeleteBudget(db: Database, user: int, id: Option<int>, fails: bool) returns (to: Redirect)
    modifies db`budgets
    ensures BudgetResult(to, db.budgets) == DeleteBudgetSpec(id, old(db.budgets), user, fails)
  {
    if id.None? {
      return Redirect("../budget.php");
    }
    if fails {
      return Redirect("../budget.php?error=Failed to delete budget");
    }
    db.budgets := db.budgets.(rows := Kept(db.budgets.rows, id.value, user));
    to := Redirect("../budget.php?success=Budget deleted successfully");
  }

  /**
   * Every other user's budgets stay exactly as they were, in order, and of
   * the session user's budgets exactly those with another id are kept, in
   * order.
   */
  lemma {:induction false} DeleteScoped(rows: seq<BudgetRow>, id: int, user: int, other: int)
    requires other != user
    ensures BudgetsOf(Kept(rows, id, user), other) == BudgetsOf(rows, other)
    ensures BudgetsOf(Kept(rows, id, user), user) == Kept(BudgetsOf(rows, user), id, user)
  {
    if rows != [] {
      DeleteScoped(rows[1..], id, user, other);
      var k := Kept(rows, id, user);
      if !(rows[0].id == id && rows[0].user == user) {
        assert k[0] == rows[0] && k[1..] == Kept(rows[1..], id, user);
      }
    }
  }

  /** Without an id, or when the database throws, nothing is deleted; otherwise the table's counter is untouched. */
  lemma DeleteBudgetChanges(id: Option<int>, t: BudgetTable, user: int, fails: bool)
    ensures id.None? || fails ==> DeleteBudgetSpec(id, t, user, fails).budgets == t
    ensures DeleteBudgetSpec(id, t, user, fails).budgets.next == t.next
    ensures id.Some? && !fails ==>
      forall b :: b in DeleteBudgetSpec(id, t, user, fails).budgets.rows <==> b in t.rows && !(b.id == id.value && b.user == user)
  {
  }
}
