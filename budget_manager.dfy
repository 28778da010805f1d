/**
 * js/budget.js: the browser-side budget planner. It keeps the budgets and
 * expenses of the `financialData` store, upserts a budget by category,
 * deletes by id, converts periods to a monthly figure and computes the
 * overview and the per-budget cards for a month. The current month
 * (`new Date().toISOString().slice(0, 7)`), `Date.now()` and the ISO
 * creation time are parameters.
 */
module BudgetManagement {
  import opened Wrappers
  import opened Text
  import opened Finance
  import Store
  import BudgetPage

  /** `findIndex((b) => b.category === category)`: the first budget of that category. */
  function CategoryIndex(budgets: seq<Budget>, category: string): (r: Option<nat>)
    ensures r.Some? ==> r.value < |budgets| && budgets[r.value].category == category
    ensures r.Some? ==> forall k :: 0 <= k < r.value ==> budgets[k].category != category
    ensures r.None? <==> forall k :: 0 <= k < |budgets| ==> budgets[k].category != category
  {
    if budgets == [] then None
    else if budgets[0].category == category then Some(0)
    else match CategoryIndex(budgets[1..], category)
      case None => None
      case Some(i) => Some(i + 1)
  }

  /** At most one budget per category. */
  predicate UniqueCategories(budgets: seq<Budget>)
  {
    forall i, j :: 0 <= i < j < |budgets| ==> budgets[i].category != budgets[j].category
  }

  /**
   * The list after a budget form submit: an existing budget of the category
   * is replaced in place, keeping its id and creation time; otherwise a new
   * budget with id `now` is appended.
   */
  function Submitted(budgets: seq<Budget>, category: string, amount: real, period: string, now: int, createdAt: string): seq<Budget>
  {
    match CategoryIndex(budgets, category)
      case Some(i) => budgets[i := Budget(budgets[i].id, category, amount, period, budgets[i].createdAt)]
      case None => budgets + [Budget(now, category, amount, period, createdAt)]
  }

  /** `filter((b) => b.id !== budgetId)`. */
  function WithoutId(budgets: seq<Budget>, id: int): (r: seq<Budget>)
    ensures forall b :: b in r <==> b in budgets && b.id != id
    ensures |r| <= |budgets|
  {
    if budgets == [] then []
    else if budgets[0].id == id then WithoutId(budgets[1..], id)
    else [budgets[0]] + WithoutId(budgets[1..], id)
  }

  /** `find((b) => b.id === budgetId)`: the earliest budget with the id. */
  function BudgetWithId(budgets: seq<Budget>, id: int): (r: Option<Budget>)
    ensures r.Some? ==> r.value in budgets && r.value.id == id
    ensures r.Some? ==> exists k :: 0 <= k < |budgets| && budgets[k] == r.value
                                    && forall j :: 0 <= j < k ==> budgets[j].id != id
    ensures r.None? <==> forall k :: 0 <= k < |budgets| ==> budgets[k].id != id
  {
    if budgets == [] then None
    else if budgets[0].id == id then Some(budgets[0])
    else BudgetWithId(budgets[1..], id)
  }

  /** convertToMonthly: weekly times 4.33, yearly over 12, every other period as it is. */
  function ConvertToMonthly(amount: real, period: string): real
  {
    if period == "weekly" then amount * 4.33
    else if period == "yearly" then amount / 12.0
    else amount
  }

  /** The `reduce` of the overview: the sum of every budget's monthly figure. */
  function TotalBudget(budgets: seq<Budget>): real
  {
    if budgets == [] then 0.0 else TotalBudget(budgets[..|budgets| - 1]) + MonthlyOf(budgets[|budgets| - 1])
  }

  function MonthlyOf(b: Budget): real
  {
    ConvertToMonthly(b.amount, b.period)
  }

  /** The expenses dated in `month` (a `YYYY-MM` prefix), restricted to `category` when one is given. */
  function MonthSpent(expenses: seq<Transaction>, month: string, category: Option<string>): real
  {
    if expenses == [] then 0.0
    else
      var e := expenses[0];
      (if StartsWith(e.date, month) && (category.None? || e.category == category.value) then e.amount else 0.0)
        + MonthSpent(expenses[1..], month, category)
  }

  /** The overview figures; `remaining >= 0` picks the green style. */
  datatype Overview = Overview(total: real, spent: real, remaining: real)

  /** A budget card: monthly figure, spent, remaining, percentage of the bar and the over-budget flag. */
  datatype Card = Card(monthly: real, spent: real, remaining: real, percentage: real, over: bool)

  function CardFor(b: Budget, expenses: seq<Transaction>, month: string): (c: Card)
    ensures c.monthly == ConvertToMonthly(b.amount, b.period)
    ensures c.spent == MonthSpent(expenses, month, Some(b.category))
    ensures c.remaining == c.monthly - c.spent
    ensures c.over <==> c.spent > c.monthly
    ensures c.monthly <= 0.0 ==> c.percentage == 0.0
    ensures c.percentage <= 100.0
  {
    var monthly := MonthlyOf(b);
    var spent := MonthSpent(expenses, month, Some(b.category));
    Card(monthly, spent, monthly - spent, BudgetPage.Percentage(spent, monthly), spent > monthly)
  }

  /** The planner's state: the stored budgets and expenses. */
  class BudgetManager {
    var budgets: seq<Budget>
    var expenses: seq<Transaction>

    /** loadBudgets and loadExpenses: the stored lists, or empty ones when nothing is stored. */
    constructor(stored: Option<FinancialData>)
      ensures stored.None? ==> budgets == [] && expenses == []
      ensures stored.Some? ==> budgets == stored.value.budgets && expenses == stored.value.expenses
    {
      match stored
        case None =>
          budgets := [];
          expenses := [];
        case Some(data) =>
          budgets := data.budgets;
          expenses := data.expenses;
    }

    /** handleBudgetSubmit with the form's category, parsed amount and period. */
    method HandleBudgetSubmit(category: string, amount: real, period: string, now: int, createdAt: string)
      modifies this`budgets
      ensures budgets == Submitted(old(budgets), category, amount, period, now, createdAt)
    {
      var existing := CategoryIndex(budgets, category);
      match existing
        case Some(i) =>
          var budget := Budget(budgets[i].id, category, amount, period, budgets[i].createdAt);
          budgets := budgets[i := budget];
        case None =>
          budgets := budgets + [Budget(now, category, amount, period, createdAt)];
    }

    /** deleteBudget: only a confirmed delete filters the list. */
    method DeleteBudget(id: int, confirmed: bool)
      modifies this`budgets
      ensures budgets == if confirmed then WithoutId(old(budgets), id) else old(budgets)
    {
      if confirmed {
        budgets := WithoutId(budgets, id);
      }
    }

    /** editBudget: the category, amount and period put into the form, or nothing for an unknown id. */
    method EditBudget(id: int) returns (form: Option<(string, real, string)>)
      ensures form.None? <==> forall k :: 0 <= k < |budgets| ==> budgets[k].id != id
      ensures form.Some? ==> exists k :: (0 <= k < |budgets| && budgets[k].id == id
                                           && (forall j :: 0 <= j < k ==> budgets[j].id != id)
                                           && form.value == (budgets[k].category, budgets[k].amount, budgets[k].period))
    {
      var budget := BudgetWithId(budgets, id);
      match budget
        case None => form := None;
        case Some(b) => form := Some((b.category, b.amount, b.period));
    }

    /** updateBudgetOverview's figures for `month`. */
    function OverviewFor(month: string): (o: Overview)
      reads this
      ensures o.total == TotalBudget(budgets) && o.spent == MonthSpent(expenses, month, None)
      ensures o.remaining == o.total - o.spent
    {
      var total := TotalBudget(budgets);
      var spent := MonthSpent(expenses, month, None);
      Overview(total, spent, total - spent)
    }

    /** updateBudgetCategories: one card per budget, in list order. */
    function CardsFor(month: string): (cards: seq<Card>)
      reads this
      ensures |cards| == |budgets|
      ensures forall k :: 0 <= k < |budgets| ==> cards[k] == CardFor(budgets[k], expenses, month)
    {
      seq(|budgets|, k requires 0 <= k < |budgets| reads this => CardFor(budgets[k], expenses, month))
    }
  }

  /** A submit keeps at most one budget per category. */
  lemma SubmitKeepsUnique(budgets: seq<Budget>, category: string, amount: real, period: string, now: int, createdAt: string)
    requires UniqueCategories(budgets)
    ensures UniqueCategories(Submitted(budgets, category, amount, period, now, createdAt))
  {
  }

  /**
   * A submit for a category already present rewrites that one budget in
   * place, keeping its id and creation time, and leaves the length and every
   * other budget alone; for an absent category it appends one new budget.
   */
  lemma SubmitChanges(budgets: seq<Budget>, category: string, amount: real, period: string, now: int, createdAt: string)
    ensures var r := Submitted(budgets, category, amount, period, now, createdAt);
      (exists k :: 0 <= k < |budgets| && budgets[k].category == category) <==> |r| == |budgets|
    ensures var r := Submitted(budgets, category, amount, period, now, createdAt);
      forall i :: (0 <= i < |budgets| && budgets[i].category == category
                   && (forall k :: 0 <= k < i ==> budgets[k].category != category)) ==>
        r == budgets[i := Budget(budgets[i].id, category, amount, period, budgets[i].createdAt)]
    ensures var r := Submitted(budgets, category, amount, period, now, createdAt);
      (forall k :: 0 <= k < |budgets| ==> budgets[k].category != category) ==>
        r == budgets + [Budget(now, category, amount, period, createdAt)]
  {
    var r := Submitted(budgets, category, amount, period, now, createdAt);
    forall i | 0 <= i < |budgets| && budgets[i].category == category && (forall k :: 0 <= k < i ==> budgets[k].category != category)
      ensures r == budgets[i := Budget(budgets[i].id, category, amount, period, budgets[i].createdAt)]
    {
      var j := CategoryIndex(budgets, category);
      assert j.Some?;
      assert j.value == i;
    }
  }

  /** After a submit the list holds exactly one budget of the submitted category, with the submitted amount and period. */
  lemma SubmitStores(budgets: seq<Budget>, category: string, amount: real, period: string, now: int, createdAt: string)
    requires UniqueCategories(budgets)
    ensures var r := Submitted(budgets, category, amount, period, now, createdAt);
      exists k :: 0 <= k < |r| && r[k].category == category && r[k].amount == amount && r[k].period == period
  {
    var r := Submitted(budgets, category, amount, period, now, createdAt);
    match CategoryIndex(budgets, category)
      case Some(i) => assert r[i].category == category;
      case None => assert r[|budgets|].category == category;
  }

  /** Deleting distributes over concatenation, so the kept budgets stay in their order. */
  lemma {:induction false} WithoutIdConcat(a: seq<Budget>, b: seq<Budget>, id: int)
    ensures WithoutId(a + b, id) == WithoutId(a, id) + WithoutId(b, id)
  {
    if a == [] {
      assert a + b == b;
    } else {
      assert (a + b)[1..] == a[1..] + b;
      WithoutIdConcat(a[1..], b, id);
    }
  }

  /** Deleting an id no budget carries changes nothing; deleting never leaves a budget with that id. */
  lemma {:induction false} WithoutIdAbsent(budgets: seq<Budget>, id: int)
    requires forall k :: 0 <= k < |budgets| ==> budgets[k].id != id
    ensures WithoutId(budgets, id) == budgets
  {
    if budgets != [] {
      WithoutIdAbsent(budgets[1..], id);
    }
  }

  /** When the ids are unique, a delete removes exactly one budget of a present id. */
  lemma {:induction false} WithoutIdRemovesOne(budgets: seq<Budget>, i: nat)
    requires i < |budgets|
    requires forall k :: 0 <= k < |budgets| && k != i ==> budgets[k].id != budgets[i].id
    ensures WithoutId(budgets, budgets[i].id) == budgets[..i] + budgets[i + 1..]
  {
    var id := budgets[i].id;
    assert budgets == budgets[..i] + ([budgets[i]] + budgets[i + 1..]);
    WithoutIdConcat(budgets[..i], [budgets[i]] + budgets[i + 1..], id);
    WithoutIdConcat([budgets[i]], budgets[i + 1..], id);
    WithoutIdAbsent(budgets[..i], id);
    WithoutIdAbsent(budgets[i + 1..], id);
    assert WithoutId([budgets[i]], id) == [];
  }

  /**
   * js/budget.js and budget.php agree on weekly and monthly budgets; a
   * semester budget is converted only by the page, a yearly one only by the
   * script, and any other period keeps its amount in both.
   */
  lemma ConversionsCompared(amount: real, period: string)
    ensures period == "weekly" ==> ConvertToMonthly(amount, period) == amount * 4.33
    ensures period == "yearly" ==> ConvertToMonthly(amount, period) == amount / 12.0
    ensures period !in {"weekly", "yearly"} ==> ConvertToMonthly(amount, period) == amount
    ensures var b := Store.BudgetRow(0, 0, "", amount, period);
      period != "semester" && period != "yearly" ==> ConvertToMonthly(amount, period) == BudgetPage.MonthlyBudget(b)
    ensures var b := Store.BudgetRow(0, 0, "", amount, period);
      period == "semester" ==> BudgetPage.MonthlyBudget(b) == amount / 6.0 && ConvertToMonthly(amount, period) == amount
  {
  }

  /** With non-negative amounts a category's spending never exceeds the month's spending. */
  lemma {:induction false} CategoryWithinMonth(expenses: seq<Transaction>, month: string, category: string)
    requires forall k :: 0 <= k < |expenses| ==> expenses[k].amount >= 0.0
    ensures 0.0 <= MonthSpent(expenses, month, Some(category)) <= MonthSpent(expenses, month, None)
  {
    if expenses != [] {
      CategoryWithinMonth(expenses[1..], month, category);
    }
  }

  /** A card's bar is never negative when spending is not, and is full exactly from the moment the budget is reached. */
  lemma CardRange(b: Budget, expenses: seq<Transaction>, month: string)
    requires forall k :: 0 <= k < |expenses| ==> expenses[k].amount >= 0.0
    ensures var c := CardFor(b, expenses, month);
      0.0 <= c.percentage <= 100.0
    ensures var c := CardFor(b, expenses, month);
      c.monthly > 0.0 ==> (c.percentage == 100.0 <==> c.spent >= c.monthly)
  {
    var c := CardFor(b, expenses, month);
    CategoryWithinMonth(expenses, month, b.category);
    if c.monthly > 0.0 {
      BudgetPage.PercentageRange(c.spent, c.monthly);
      if c.spent < c.monthly {
        var q := c.spent / c.monthly;
        assert q * c.monthly == c.spent;
        assert q < 1.0;
      }
    }
  }

  /** The total budget of a list is the sum of its budgets' monthly figures, piece by piece. */
  lemma {:induction false} TotalBudgetConcat(a: seq<Budget>, b: seq<Budget>)
    ensures TotalBudget(a + b) == TotalBudget(a) + TotalBudget(b)
    decreases |b|
  {
    if b == [] {
      assert a + b == a;
    } else {
      assert (a + b)[..|a + b| - 1] == a + b[..|b| - 1];
      TotalBudgetConcat(a, b[..|b| - 1]);
    }
  }

  /** A submit for a new category adds its monthly figure to the total; replacing swaps the old figure for the new one. */
  lemma SubmitTotal(budgets: seq<Budget>, category: string, amount: real, period: string, now: int, createdAt: string)
    ensures var r := Submitted(budgets, category, amount, period, now, createdAt);
      match CategoryIndex(budgets, category)
        case None => TotalBudget(r) == TotalBudget(budgets) + ConvertToMonthly(amount, period)
        case Some(i) => TotalBudget(r) == TotalBudget(budgets) - MonthlyOf(budgets[i]) + ConvertToMonthly(amount, period)
  {
    var r := Submitted(budgets, category, amount, period, now, createdAt);
    match CategoryIndex(budgets, category)
      case None =>
        TotalBudgetConcat(budgets, [Budget(now, category, amount, period, createdAt)]);
        assert TotalBudget([Budget(now, category, amount, period, createdAt)]) == ConvertToMonthly(amount, period);
      case Some(i) =>
        var nb := Budget(budgets[i].id, category, amount, period, budgets[i].createdAt);
        assert budgets == budgets[..i] + [budgets[i]] + budgets[i + 1..];
        assert r == budgets[..i] + [nb] + budgets[i + 1..];
        TotalBudgetConcat(budgets[..i] + [budgets[i]], budgets[i + 1..]);
        TotalBudgetConcat(budgets[..i], [budgets[i]]);
        TotalBudgetConcat(budgets[..i] + [nb], budgets[i + 1..]);
        TotalBudgetConcat(budgets[..i], [nb]);
        assert TotalBudget([nb]) == ConvertToMonthly(amount, period);
        assert TotalBudget([budgets[i]]) == MonthlyOf(budgets[i]);
  }
}
