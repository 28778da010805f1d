/**
 * api/add_income.php: the dashboard's income form post. The description
 * is trimmed with PHP's `trim`; the checks run on the trimmed description
 * and the posted category and date, and a valid post inserts one income
 * row for the session user.
 */
module IncomeForm {
  import opened Wrappers
  import opened Store

  /** The posted fields; `amount` is `floatval($_POST['amount'])`. */
  datatype IncomePost = IncomePost(verb: string, amount: real, description: string, category: string, date: string)

  datatype IncomeResult = IncomeResult(to: Redirect, income: Table)

  /** The checks of line 11, on the trimmed description. */
  predicate ValidIncome(q: IncomePost)
  {
    q.amount > 0.0 && !Empty(PhpTrim(q.description)) && !Empty(q.category) && !Empty(q.date)
  }

  function AddIncomeSpec(q: IncomePost, t: Table, user: int, fails: bool): IncomeResult
  {
    if q.verb != "POST" then IncomeResult(Redirect("../dashboard.php"), t)
    else if !ValidIncome(q) then IncomeResult(Redirect("../dashboard.php?error=Please fill in all fields correctly"), t)
    else if fails then IncomeResult(Redirect("../dashboard.php?error=Failed to add income"), t)
    else IncomeResult(Redirect("../dashboard.php?success=Income added successfully"),
                      t.Insert(user, q.amount, PhpTrim(q.description), Some(q.category), q.date))
  }

  method AddIncome(db: Database, user: int, q: IncomePost, fails: bool) returns (to: Redirect)
    modifies db`income
    ensures IncomeResult(to, db.income) == AddIncomeSpec(q, old(db.income), user, fails)
  {
    if q.verb != "POST" {
      return Redirect("../dashboard.php");
    }
    var description := PhpTrim(q.description);
    if q.amount <= 0.0 || Empty(description) || Empty(q.category) || Empty(q.date) {
      return Redirect("../dashboard.php?error=Please fill in all fields correctly");
    }
    if fails {
      return Redirect("../dashboard.php?error=Failed to add income");
    }
    db.income := db.income.Insert(user, q.amount, description, Some(q.category), q.date);
    to := Redirect("../dashboard.php?success=Income added successfully");
  }

  /**
   * The income table changes exactly for a valid POST the database accepts,
   * and then gains exactly one row: the session user's, with a positive
   * amount, the posted category and date, and a description with no PHP
   * whitespace at either end.
   */
  lemma AddIncomeChanges(q: IncomePost, t: Table, user: int, fails: bool)
    ensures var r := AddIncomeSpec(q, t, user, fails);
      r.income != t <==> q.verb == "POST" && ValidIncome(q) && !fails
    ensures var r := AddIncomeSpec(q, t, user, fails);
      r.income != t ==>
        |r.income.rows| == |t.rows| + 1 && r.income.rows[..|t.rows|] == t.rows
        && var row := r.income.rows[|t.rows|];
        row.user == user && row.amount == q.amount && row.amount > 0.0 && row.category == Some(q.category) && row.date == q.date
        && row.description == PhpTrim(q.description) && row.description != []
        && row.description[0] !in PhpSpace && row.description[|row.description| - 1] !in PhpSpace
  {
    var r := AddIncomeSpec(q, t, user, fails);
    if q.verb == "POST" && ValidIncome(q) && !fails {
      assert |r.income.rows| == |t.rows| + 1;
      assert r.income.rows[..|t.rows|] == t.rows;
    }
  }

  /** A description of only PHP whitespace is refused, whatever the amount, category and date. */
  lemma BlankDescriptionRefused(q: IncomePost, t: Table, user: int, fails: bool)
    requires q.verb == "POST"
    requires forall k :: 0 <= k < |q.description| ==> q.description[k] in PhpSpace
    ensures AddIncomeSpec(q, t, user, fails) == IncomeResult(Redirect("../dashboard.php?error=Please fill in all fields correctly"), t)
  {
  }
}
