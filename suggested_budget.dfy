/**
 * suggested-budget.php: the suggested monthly allocation derived from the
 * user's average income, and the "apply" post that writes a budget per
 * category inside one database transaction. The average comes from SQL
 * (`AVG(amount)` over the last three months), so it is an input here.
 *
 * The page's percentage table sums to 110, so as written the suggestion
 * always exceeds the income it divides (`AsWrittenOverspends`). The page
 * explains its method as 65% essentials (food 30, accommodation 20,
 * transport 15), 20% academic and personal (textbooks 10, entertainment 8,
 * other expenses 2) and 15% savings; `Suggested` is that allocation, with
 * savings taking what rounding leaves so the total is the income.
 */
module SuggestedBudget {
  import opened Wrappers
  import opened Store
  import opened BudgetForms

  /** A category of the suggestion and its percentage of income. */
  datatype Share = Share(category: string, percent: int)

  /** The spending shares of lines 30-37, in the page's order. */
  const Spending: seq<Share> := [Share("food", 30), Share("transportation", 15), Share("textbooks", 10),
                                 Share("accommodation", 20), Share("entertainment", 8), Share("clothing", 5),
                                 Share("healthcare", 3), Share("internet", 4)]

  /** The savings share of line 38. */
  const SavingsShare := Share("savings", 15)

  /** The spending shares of the page's method description (lines 170-186): clothing, healthcare and internet give way to 2% of other expenses. */
  const Method: seq<Share> := [Share("food", 30), Share("transportation", 15), Share("textbooks", 10),
                               Share("accommodation", 20), Share("entertainment", 8), Share("other", 2)]

  /** The allowance assumed when the user has no recent income. */
  const DefaultIncome: real := 50000.0

  /** A suggested amount for one category. */
  datatype Line = Line(category: string, amount: real)

  /**
   * `$income_data['avg_income'] ?? 0`, replaced by the default when it is 0:
   * `None` is the SQL NULL that `AVG` gives over no rows.
   */
  function MonthlyIncome(avg: Option<real>): (r: real)
    ensures r != 0.0
    ensures avg.GetOr(0.0) == 0.0 ==> r == DefaultIncome
    ensures avg.GetOr(0.0) != 0.0 ==> r == avg.value
  {
    if avg.GetOr(0.0) == 0.0 then DefaultIncome else avg.value
  }

  /** PHP's `round` to an integer: halves go away from zero. */
  function PhpRound(x: real): (n: int)
    ensures -0.5 <= n as real - x <= 0.5
    ensures x >= 0.0 ==> n >= 0
  {
    if x >= 0.0 then (x + 0.5).Floor else -((-x + 0.5).Floor)
  }

  function Percents(shares: seq<Share>): int
  {
    if shares == [] then 0 else shares[0].percent + Percents(shares[1..])
  }

  /** `round($avg_monthly_income * p)` for one share. */
  function Portion(income: real, s: Share): Line
  {
    Line(s.category, PhpRound(income * s.percent as real / 100.0) as real)
  }

  /** Every share's portion, in order. */
  function Rounded(income: real, shares: seq<Share>): (r: seq<Line>)
    ensures |r| == |shares|
    ensures forall k :: 0 <= k < |shares| ==> r[k].category == shares[k].category
  {
    if shares == [] then [] else [Portion(income, shares[0])] + Rounded(income, shares[1..])
  }

  /** `array_sum`. */
  function Sum(lines: seq<Line>): real
  {
    if lines == [] then 0.0 else lines[0].amount + Sum(lines[1..])
  }

  /** The table as the page builds it: all nine shares rounded. */
  function SuggestedAsWritten(income: real): seq<Line>
  {
    Rounded(income, Spending + [SavingsShare])
  }

  /** The allocation the page describes: the method's spending shares rounded, savings the rest of the income. */
  function Suggested(income: real): (r: seq<Line>)
    ensures |r| == 7 && r[6].category == "savings"
  {
    var spend := Rounded(income, Method);
    spend + [Line("savings", income - Sum(spend))]
  }

  /** The "Remaining" figure of lines 290-291. */
  function Remaining(income: real, lines: seq<Line>): real
  {
    income - Sum(lines)
  }

  lemma {:induction false} SumConcat(a: seq<Line>, b: seq<Line>)
    ensures Sum(a + b) == Sum(a) + Sum(b)
  {
    if a == [] {
      assert a + b == b;
    } else {
      assert (a + b)[1..] == a[1..] + b;
      SumConcat(a[1..], b);
    }
  }

  /** Rounding each share moves the total by at most half a unit per share. */
  lemma {:induction false} RoundedNear(income: real, shares: seq<Share>)
    ensures Sum(Rounded(income, shares)) - income * Percents(shares) as real / 100.0 <= 0.5 * |shares| as real
    ensures income * Percents(shares) as real / 100.0 - Sum(Rounded(income, shares)) <= 0.5 * |shares| as real
  {
    if shares != [] {
      RoundedNear(income, shares[1..]);
    }
  }

  /** The nine percentages add up to 110. */
  lemma AsWrittenPercents()
    ensures Percents(Spending) == 95
    ensures Percents(Spending + [SavingsShare]) == 110
  {
    var all := Spending + [SavingsShare];
    assert Percents(all[8..]) == 15;
    assert Percents(all[7..]) == 19;
    assert Percents(all[6..]) == 22;
    assert Percents(all[5..]) == 27;
    assert Percents(all[4..]) == 35;
    assert Percents(all[3..]) == 55;
    assert Percents(all[2..]) == 65;
    assert Percents(all[1..]) == 80;
    assert Percents(Spending[7..]) == 4;
    assert Percents(Spending[6..]) == 7;
    assert Percents(Spending[5..]) == 12;
    assert Percents(Spending[4..]) == 20;
    assert Percents(Spending[3..]) == 40;
    assert Percents(Spending[2..]) == 50;
    assert Percents(Spending[1..]) == 65;
  }

  /** As written, every income of at least 50 gets a suggestion above itself: "Remaining" is negative. */
  lemma AsWrittenOverspends(income: real)
    requires income >= 50.0
    ensures Sum(SuggestedAsWritten(income)) > income
    ensures Remaining(income, SuggestedAsWritten(income)) < 0.0
  {
    AsWrittenPercents();
    RoundedNear(income, Spending + [SavingsShare]);
  }

  /** The default allowance of 50000 is shown a suggested total of at least 54995.5 and at least 4995.5 overspent. */
  lemma DefaultOverspends()
    ensures Sum(SuggestedAsWritten(MonthlyIncome(None))) >= 54995.5
    ensures Remaining(MonthlyIncome(None), SuggestedAsWritten(MonthlyIncome(None))) <= -4995.5
  {
    AsWrittenPercents();
    RoundedNear(DefaultIncome, Spending + [SavingsShare]);
  }

  /** The method's shares, savings included, add up to 100. */
  lemma MethodPercents()
    ensures Percents(Method) == 85
    ensures Percents(Method + [SavingsShare]) == 100
  {
    var all := Method + [SavingsShare];
    assert Percents(all[6..]) == 15;
    assert Percents(all[5..]) == 17;
    assert Percents(all[4..]) == 25;
    assert Percents(all[3..]) == 45;
    assert Percents(all[2..]) == 55;
    assert Percents(all[1..]) == 70;
    assert Percents(Method[5..]) == 2;
    assert Percents(Method[4..]) == 10;
    assert Percents(Method[3..]) == 30;
    assert Percents(Method[2..]) == 40;
    assert Percents(Method[1..]) == 55;
  }

  /**
   * The corrected allocation divides exactly the income and leaves nothing
   * over, keeps the five lines the method shares with the page's table, and
   * its savings line stays within 3 of 15% of the income.
   */
  lemma SuggestedFits(income: real)
    ensures Sum(Suggested(income)) == income
    ensures Remaining(income, Suggested(income)) == 0.0
    ensures Suggested(income)[..5] == SuggestedAsWritten(income)[..5]
    ensures -3.0 <= Suggested(income)[6].amount - income * 15.0 / 100.0 <= 3.0
  {
    var spend := Rounded(income, Method);
    SumConcat(spend, [Line("savings", income - Sum(spend))]);
    MethodPercents();
    RoundedNear(income, Method);
    var five := Spending[..5];
    assert Method == five + [Share("other", 2)];
    assert Spending + [SavingsShare] == five + (Spending[5..] + [SavingsShare]);
    RoundedConcat(income, five, [Share("other", 2)]);
    RoundedConcat(income, five, Spending[5..] + [SavingsShare]);
  }

  /** From an income of 20 on, the savings line of the corrected allocation is never negative. */
  lemma SavingsNonNegative(income: real)
    requires income >= 20.0
    ensures Suggested(income)[6].amount >= 0.0
  {
    MethodPercents();
    RoundedNear(income, Method);
  }

  lemma {:induction false} RoundedConcat(income: real, a: seq<Share>, b: seq<Share>)
    ensures Rounded(income, a + b) == Rounded(income, a) + Rounded(income, b)
  {
    if a == [] {
      assert a + b == b;
    } else {
      assert (a + b)[0] == a[0] && (a + b)[1..] == a[1..] + b;
      RoundedConcat(income, a[1..], b);
      var head := [Portion(income, a[0])];
      assert head + (Rounded(income, a[1..]) + Rounded(income, b)) == (head + Rounded(income, a[1..])) + Rounded(income, b);
    }
  }

  // ---------------------------------------------------------------------
  // Applying a budget
  // ---------------------------------------------------------------------

  /**
   * The apply form: `apply_budget` and `replace_existing` are set or not,
   * and `budget` maps each category to its posted amount, in form order.
   */
  datatype ApplyPost = ApplyPost(verb: string, applyBudget: bool, replaceExisting: bool, amounts: seq<(string, real)>)

  /** The page is shown again (with an error after a rollback) or the browser is sent to budget.php. */
  datatype Page = Render(error: Option<string>) | Go(to: Redirect)

  datatype ApplyResult = ApplyResult(page: Page, budgets: BudgetTable)

  /** `DELETE FROM budgets WHERE user_id = ?`: the other users' rows, in order. */
  function Dropped(rows: seq<BudgetRow>, user: int): (r: seq<BudgetRow>)
    ensures forall b :: b in r <==> b in rows && b.user != user
  {
    if rows == [] then []
    else if rows[0].user == user then Dropped(rows[1..], user)
    else [rows[0]] + Dropped(rows[1..], user)
  }

  /** The row update of `ON DUPLICATE KEY UPDATE amount = VALUES(amount)`. */
  function SetAmount(rows: seq<BudgetRow>, user: int, category: string, amount: real): seq<BudgetRow>
  {
    seq(|rows|, k requires 0 <= k < |rows| =>
      if rows[k].user == user && rows[k].category == category then rows[k].(amount := amount) else rows[k])
  }

  /**
   * One execution of the insert of line 60, with (user_id, category) the
   * table's unique key: an existing budget takes the new amount and keeps
   * its id and period; otherwise a monthly budget is inserted.
   */
  function Upsert(t: BudgetTable, user: int, category: string, amount: real): BudgetTable
  {
    if HasBudget(t.rows, user, category) then t.(rows := SetAmount(t.rows, user, category, amount))
    else t.Insert(user, category, amount, "monthly")
  }

  /** The `foreach` of lines 62-66 from entry `i` on: only amounts above 0 are written. */
  function Fill(t: BudgetTable, user: int, amounts: seq<(string, real)>, i: nat): BudgetTable
    requires i <= |amounts|
    decreases |amounts| - i
  {
    if i == |amounts| then t
    else Fill(if amounts[i].1 > 0.0 then Upsert(t, user, amounts[i].0, amounts[i].1) else t, user, amounts, i + 1)
  }

  /** The table after the delete that `replace_existing` asks for. */
  function Cleared(t: BudgetTable, user: int, replace: bool): BudgetTable
  {
    if replace then t.(rows := Dropped(t.rows, user)) else t
  }

  /** The POST handler; a database error rolls back the delete and every insert. */
  function ApplySpec(q: ApplyPost, t: BudgetTable, user: int, fails: bool): ApplyResult
  {
    if q.verb != "POST" || !q.applyBudget then ApplyResult(Render(None), t)
    else if fails then ApplyResult(Render(Some("Failed to apply budget. Please try again.")), t)
    else ApplyResult(Go(Redirect("budget.php?success=Smart budget applied successfully")),
                     Fill(Cleared(t, user, q.replaceExisting), user, q.amounts, 0))
  }

  method ApplyBudget(db: Database, user: int, q: ApplyPost, fails: bool) returns (page: Page)
    modifies db`budgets
    ensures ApplyResult(page, db.budgets) == ApplySpec(q, old(db.budgets), user, fails)
  {
    if q.verb != "POST" || !q.applyBudget {
      return Render(None);
    }
    var saved := db.budgets;
    if q.replaceExisting {
      db.budgets := db.budgets.(rows := Dropped(db.budgets.rows, user));
    }
    ghost var goal := Fill(db.budgets, user, q.amounts, 0);
    for i := 0 to |q.amounts|
      invariant Fill(db.budgets, user, q.amounts, i) == goal
    {
      var (category, amount) := q.amounts[i];
      if amount > 0.0 {
        db.budgets := Upsert(db.budgets, user, category, amount);
      }
    }
    if fails {
      db.budgets := saved;
      page := Render(Some("Failed to apply budget. Please try again."));
    } else {
      page := Go(Redirect("budget.php?success=Smart budget applied successfully"));
    }
  }

  /**
   * An upsert for a budgeted category changes only that budget's amount
   * (id, category and period stay); for any other category it appends one
   * monthly budget with the next id.
   */
  lemma UpsertSpec(t: BudgetTable, user: int, category: string, amount: real)
    ensures HasBudget(t.rows, user, category) ==>
      var r := Upsert(t, user, category, amount).rows;
      |r| == |t.rows|
      && forall k :: 0 <= k < |r| ==>
        r[k].id == t.rows[k].id && r[k].user == t.rows[k].user && r[k].category == t.rows[k].category
        && r[k].period == t.rows[k].period
        && r[k].amount == (if t.rows[k].user == user && t.rows[k].category == category then amount else t.rows[k].amount)
    ensures !HasBudget(t.rows, user, category) ==>
      Upsert(t, user, category, amount).rows == t.rows + [BudgetRow(t.next, user, category, amount, "monthly")]
  {
  }

  lemma UpsertKeepsUnique(t: BudgetTable, user: int, category: string, amount: real)
    requires UniqueBudgets(t.rows)
    ensures UniqueBudgets(Upsert(t, user, category, amount).rows)
  {
    var r := Upsert(t, user, category, amount).rows;
    if !HasBudget(t.rows, user, category) {
      forall i, j | 0 <= i < j < |r|
        ensures r[i].user != r[j].user || r[i].category != r[j].category
      {
        if j == |t.rows| {
          assert r[i] == t.rows[i];
        }
      }
    }
  }

  lemma {:induction false} DroppedKeepsUnique(rows: seq<BudgetRow>, user: int)
    requires UniqueBudgets(rows)
    ensures UniqueBudgets(Dropped(rows, user))
  {
    if rows != [] {
      DroppedKeepsUnique(rows[1..], user);
      var d := Dropped(rows, user);
      if rows[0].user != user {
        forall j | 0 < j < |d|
          ensures d[0].user != d[j].user || d[0].category != d[j].category
        {
          var k :| 0 <= k < |rows[1..]| && rows[1..][k] == d[j];
          assert rows[k + 1] == d[j];
        }
      }
    }
  }

  lemma {:induction false} FillKeepsUnique(t: BudgetTable, user: int, amounts: seq<(string, real)>, i: nat)
    requires i <= |amounts|
    requires UniqueBudgets(t.rows)
    ensures UniqueBudgets(Fill(t, user, amounts, i).rows)
    decreases |amounts| - i
  {
    if i < |amounts| {
      if amounts[i].1 > 0.0 {
        UpsertKeepsUnique(t, user, amounts[i].0, amounts[i].1);
      }
      FillKeepsUnique(if amounts[i].1 > 0.0 then Upsert(t, user, amounts[i].0, amounts[i].1) else t, user, amounts, i + 1);
    }
  }

  /** Applying keeps at most one budget per user and category. */
  lemma ApplyKeepsUnique(q: ApplyPost, t: BudgetTable, user: int, fails: bool)
    requires UniqueBudgets(t.rows)
    ensures UniqueBudgets(ApplySpec(q, t, user, fails).budgets.rows)
  {
    if q.verb == "POST" && q.applyBudget && !fails {
      if q.replaceExisting {
        DroppedKeepsUnique(t.rows, user);
      }
      FillKeepsUnique(Cleared(t, user, q.replaceExisting), user, q.amounts, 0);
    }
  }

  lemma {:induction false} BudgetsOfConcat(a: seq<BudgetRow>, b: seq<BudgetRow>, other: int)
    ensures BudgetsOf(a + b, other) == BudgetsOf(a, other) + BudgetsOf(b, other)
  {
    if a == [] {
      assert a + b == b;
    } else {
      assert (a + b)[1..] == a[1..] + b;
      BudgetsOfConcat(a[1..], b, other);
    }
  }

  lemma {:induction false} SetAmountLeavesOthers(rows: seq<BudgetRow>, user: int, category: string, amount: real, other: int)
    requires other != user
    ensures BudgetsOf(SetAmount(rows, user, category, amount), other) == BudgetsOf(rows, other)
  {
    if rows != [] {
      var r := SetAmount(rows, user, category, amount);
      assert r[1..] == SetAmount(rows[1..], user, category, amount);
      SetAmountLeavesOthers(rows[1..], user, category, amount, other);
    }
  }

  lemma {:induction false} DroppedLeavesOthers(rows: seq<BudgetRow>, user: int, other: int)
    requires other != user
    ensures BudgetsOf(Dropped(rows, user), other) == BudgetsOf(rows, other)
  {
    if rows != [] {
      DroppedLeavesOthers(rows[1..], user, other);
    }
  }

  lemma {:induction false} FillLeavesOthers(t: BudgetTable, user: int, amounts: seq<(string, real)>, i: nat, other: int)
    requires i <= |amounts|
    requires other != user
    ensures BudgetsOf(Fill(t, user, amounts, i).rows, other) == BudgetsOf(t.rows, other)
    decreases |amounts| - i
  {
    if i < |amounts| {
      var (c, a) := amounts[i];
      if a > 0.0 {
        if HasBudget(t.rows, user, c) {
          SetAmountLeavesOthers(t.rows, user, c, a, other);
        } else {
          BudgetsOfConcat(t.rows, [BudgetRow(t.next, user, c, a, "monthly")], other);
        }
      }
      FillLeavesOthers(if a > 0.0 then Upsert(t, user, c, a) else t, user, amounts, i + 1, other);
    }
  }

  /** Whatever is posted, every other user's budgets stay exactly as they were, in order. */
  lemma ApplyLeavesOthers(q: ApplyPost, t: BudgetTable, user: int, fails: bool, other: int)
    requires other != user
    ensures BudgetsOf(ApplySpec(q, t, user, fails).budgets.rows, other) == BudgetsOf(t.rows, other)
  {
    if q.verb == "POST" && q.applyBudget && !fails {
      if q.replaceExisting {
        DroppedLeavesOthers(t.rows, user, other);
      }
      FillLeavesOthers(Cleared(t, user, q.replaceExisting), user, q.amounts, 0, other);
    }
  }

  /** The budget the user holds for `category` has `amount`. */
  predicate Holds(rows: seq<BudgetRow>, user: int, category: string, amount: real)
  {
    exists k :: 0 <= k < |rows| && rows[k].user == user && rows[k].category == category && rows[k].amount == amount
  }

  lemma UpsertHolds(t: BudgetTable, user: int, category: string, amount: real)
    ensures Holds(Upsert(t, user, category, amount).rows, user, category, amount)
  {
    var r := Upsert(t, user, category, amount).rows;
    if HasBudget(t.rows, user, category) {
      var k :| 0 <= k < |t.rows| && t.rows[k].user == user && t.rows[k].category == category;
      assert r[k].amount == amount;
    } else {
      assert r[|t.rows|].amount == amount;
    }
  }

  lemma UpsertKeepsHolds(t: BudgetTable, user: int, category: string, amount: real, c: string, a: real)
    requires c != category
    requires Holds(t.rows, user, c, a)
    ensures Holds(Upsert(t, user, category, amount).rows, user, c, a)
  {
    var r := Upsert(t, user, category, amount).rows;
    var k :| 0 <= k < |t.rows| && t.rows[k].user == user && t.rows[k].category == c && t.rows[k].amount == a;
    assert r[k] == t.rows[k];
  }

  lemma {:induction false} FillKeepsHolds(t: BudgetTable, user: int, amounts: seq<(string, real)>, i: nat, c: string, a: real)
    requires i <= |amounts|
    requires Holds(t.rows, user, c, a)
    requires forall j :: i <= j < |amounts| ==> amounts[j].0 != c
    ensures Holds(Fill(t, user, amounts, i).rows, user, c, a)
    decreases |amounts| - i
  {
    if i < |amounts| {
      if amounts[i].1 > 0.0 {
        UpsertKeepsHolds(t, user, amounts[i].0, amounts[i].1, c, a);
      }
      FillKeepsHolds(if amounts[i].1 > 0.0 then Upsert(t, user, amounts[i].0, amounts[i].1) else t, user, amounts, i + 1, c, a);
    }
  }

  lemma {:induction false} FillWrites(t: BudgetTable, user: int, amounts: seq<(string, real)>, i: nat, k: nat)
    requires i <= k < |amounts|
    requires amounts[k].1 > 0.0
    requires forall j :: k < j < |amounts| ==> amounts[j].0 != amounts[k].0
    ensures Holds(Fill(t, user, amounts, i).rows, user, amounts[k].0, amounts[k].1)
    decreases |amounts| - i
  {
    var next := if amounts[i].1 > 0.0 then Upsert(t, user, amounts[i].0, amounts[i].1) else t;
    if i == k {
      UpsertHolds(t, user, amounts[k].0, amounts[k].1);
      FillKeepsHolds(next, user, amounts, i + 1, amounts[k].0, amounts[k].1);
    } else {
      FillWrites(next, user, amounts, i + 1, k);
    }
  }

  /**
   * After a committed apply, every category posted with an amount above 0
   * has a budget of the user with exactly that amount (form keys are
   * distinct, so no later entry overwrites it).
   */
  lemma ApplyWritesPositive(q: ApplyPost, t: BudgetTable, user: int, k: nat)
    requires q.verb == "POST" && q.applyBudget
    requires k < |q.amounts| && q.amounts[k].1 > 0.0
    requires forall j :: 0 <= j < |q.amounts| && j != k ==> q.amounts[j].0 != q.amounts[k].0
    ensures Holds(ApplySpec(q, t, user, false).budgets.rows, user, q.amounts[k].0, q.amounts[k].1)
  {
    FillWrites(Cleared(t, user, q.replaceExisting), user, q.amounts, 0, k);
  }

  /** Every budget of `user` is monthly and is a posted entry with an amount above 0. */
  predicate FromEntries(rows: seq<BudgetRow>, user: int, amounts: seq<(string, real)>)
  {
    forall b :: b in rows && b.user == user ==>
      b.period == "monthly" && exists k :: 0 <= k < |amounts| && amounts[k].1 > 0.0 && amounts[k] == (b.category, b.amount)
  }

  lemma {:induction false} FillFromEntries(t: BudgetTable, user: int, amounts: seq<(string, real)>, i: nat)
    requires i <= |amounts|
    requires FromEntries(t.rows, user, amounts)
    ensures FromEntries(Fill(t, user, amounts, i).rows, user, amounts)
    decreases |amounts| - i
  {
    if i < |amounts| {
      var (c, a) := amounts[i];
      var next := if a > 0.0 then Upsert(t, user, c, a) else t;
      if a > 0.0 {
        forall b | b in next.rows && b.user == user
          ensures b.period == "monthly" && exists k :: 0 <= k < |amounts| && amounts[k].1 > 0.0 && amounts[k] == (b.category, b.amount)
        {
          if HasBudget(t.rows, user, c) {
            var m :| 0 <= m < |next.rows| && next.rows[m] == b;
            if t.rows[m].user == user && t.rows[m].category == c {
              assert amounts[i] == (b.category, b.amount);
            } else {
              assert b == t.rows[m];
            }
          } else if b == BudgetRow(t.next, user, c, a, "monthly") {
            assert amounts[i] == (b.category, b.amount);
          } else {
            assert b in t.rows;
          }
        }
      }
      FillFromEntries(next, user, amounts, i + 1);
    }
  }

  /**
   * With `replace_existing`, a committed apply leaves the user exactly
   * monthly budgets taken from the posted entries with amounts above 0.
   */
  lemma ReplaceLeavesOnlyEntries(q: ApplyPost, t: BudgetTable, user: int)
    requires q.verb == "POST" && q.applyBudget && q.replaceExisting
    ensures FromEntries(ApplySpec(q, t, user, false).budgets.rows, user, q.amounts)
  {
    FillFromEntries(Cleared(t, user, true), user, q.amounts, 0);
  }

  /** Anything but the apply POST, or a rolled-back one, leaves the budgets as they were. */
  lemma NoApplyChangesNothing(q: ApplyPost, t: BudgetTable, user: int, fails: bool)
    requires q.verb != "POST" || !q.applyBudget || fails
    ensures ApplySpec(q, t, user, fails).budgets == t
    ensures ApplySpec(q, t, user, fails).page.Render?
  {
  }
}
