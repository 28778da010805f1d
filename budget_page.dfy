/**
 * budget.php: the server-rendered budget page. The total budget is a
 * `foreach` over the user's budgets that converts each period to a monthly
 * figure; each budget's card converts again, with a different rule for
 * unknown periods, and compares it with the month's spending in its
 * category. The SQL sums (`SUM(amount)` for the month, overall and per
 * category) are inputs.
 */
module BudgetPage {
  import opened Store

  /** What one budget adds to the total of lines 16-25: unknown periods add nothing. */
  function Contribution(b: BudgetRow): real
  {
    if b.period == "monthly" then b.amount
    else if b.period == "weekly" then b.amount * 4.33
    else if b.period == "semester" then b.amount / 6.0
    else 0.0
  }

  function TotalOf(budgets: seq<BudgetRow>): real
  {
    if budgets == [] then 0.0 else TotalOf(budgets[..|budgets| - 1]) + Contribution(budgets[|budgets| - 1])
  }

  /** The `foreach` of lines 16-25. */
  method TotalBudget(budgets: seq<BudgetRow>) returns (total: real)
    ensures total == TotalOf(budgets)
  {
    total := 0.0;
    for i := 0 to |budgets|
      invariant total == TotalOf(budgets[..i])
    {
      assert budgets[..i + 1][..i] == budgets[..i];
      var b := budgets[i];
      if b.period == "monthly" {
        total := total + b.amount;
      } else if b.period == "weekly" {
        total := total + b.amount * 4.33;
      } else if b.period == "semester" {
        total := total + b.amount / 6.0;
      }
    }
    assert budgets[..|budgets|] == budgets;
  }

  /** A budget's monthly figure on its card (lines 166-171): unknown periods keep the raw amount. */
  function MonthlyBudget(b: BudgetRow): real
  {
    if b.period == "weekly" then b.amount * 4.33
    else if b.period == "semester" then b.amount / 6.0
    else b.amount
  }

  /** A budget's card: its monthly figure, what is left, the percentage used and the over-budget flag. */
  datatype Card = Card(monthly: real, remaining: real, percentage: real, over: bool)

  /** `min(($spent / $monthly) * 100, 100)` when the monthly figure is positive, else 0. */
  function Percentage(spent: real, monthly: real): (p: real)
    ensures monthly <= 0.0 ==> p == 0.0
    ensures p <= 100.0
  {
    if monthly > 0.0 then (if spent / monthly * 100.0 < 100.0 then spent / monthly * 100.0 else 100.0) else 0.0
  }

  /**
   * With a positive monthly figure the percentage is 100 from the moment
   * spending reaches the budget, the exact share below that, and never
   * negative while spending is not.
   */
  lemma PercentageRange(spent: real, monthly: real)
    requires monthly > 0.0
    ensures spent >= 0.0 ==> 0.0 <= Percentage(spent, monthly)
    ensures spent >= monthly ==> Percentage(spent, monthly) == 100.0
    ensures spent < monthly ==> Percentage(spent, monthly) == spent / monthly * 100.0
  {
    var q := spent / monthly;
    assert q * monthly == spent;
    if spent >= monthly {
      assert q >= 1.0;
    } else {
      assert q < 1.0;
    }
    if spent >= 0.0 {
      assert q >= 0.0;
    }
  }

  /** Lines 173-175, with `spent` the month's `SUM(amount)` of the budget's category. */
  function CardOf(b: BudgetRow, spent: real): (c: Card)
    ensures c.over <==> spent > MonthlyBudget(b)
    ensures c.remaining == MonthlyBudget(b) - spent
    ensures c.over <==> c.remaining < 0.0
  {
    var m := MonthlyBudget(b);
    Card(m, m - spent, Percentage(spent, m), spent > m)
  }

  /**
   * The page's overview figures: the total budget and what remains of it
   * after the month's spending.
   */
  datatype Overview = Overview(total: real, spent: real, remaining: real)

  function OverviewOf(budgets: seq<BudgetRow>, spent: real): (o: Overview)
    ensures o.remaining == o.total - o.spent && o.spent == spent
  {
    var t := TotalOf(budgets);
    Overview(t, spent, t - spent)
  }

  /**
   * Both conversions take a weekly amount times 4.33 and a semester amount
   * over 6, and a monthly one as it is; they disagree on every other
   * period, which shows its raw amount on its card but adds nothing to the
   * total.
   */
  lemma PeriodConversions(b: BudgetRow)
    ensures b.period == "monthly" ==> Contribution(b) == MonthlyBudget(b) == b.amount
    ensures b.period == "weekly" ==> Contribution(b) == MonthlyBudget(b) == b.amount * 4.33
    ensures b.period == "semester" ==> Contribution(b) == MonthlyBudget(b) == b.amount / 6.0
    ensures b.period !in {"monthly", "weekly", "semester"} ==> Contribution(b) == 0.0 && MonthlyBudget(b) == b.amount
  {
  }

  /** For the three known periods the total adds exactly the cards' monthly figures. */
  lemma {:induction false} TotalIsCardSum(budgets: seq<BudgetRow>)
    requires forall k :: 0 <= k < |budgets| ==> budgets[k].period in {"monthly", "weekly", "semester"}
    ensures TotalOf(budgets) == CardSum(budgets)
  {
    if budgets != [] {
      TotalIsCardSum(budgets[..|budgets| - 1]);
    }
  }

  function CardSum(budgets: seq<BudgetRow>): real
  {
    if budgets == [] then 0.0 else CardSum(budgets[..|budgets| - 1]) + MonthlyBudget(budgets[|budgets| - 1])
  }

  /** With non-negative amounts the total budget is never negative. */
  lemma {:induction false} TotalNonNegative(budgets: seq<BudgetRow>)
    requires forall k :: 0 <= k < |budgets| ==> budgets[k].amount >= 0.0
    ensures TotalOf(budgets) >= 0.0
  {
    if budgets != [] {
      TotalNonNegative(budgets[..|budgets| - 1]);
    }
  }
}
