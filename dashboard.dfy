/**
 * The browser dashboard of js/dashboard.js: the `FinancialTracker` that
 * holds the `financialData` record, takes new income and expenses from the
 * two modal forms, and derives the figures the page shows (totals, net
 * balance, savings rate, the ten latest transactions, the per-category
 * doughnut chart and the six-month trend chart).
 */
module Dashboard {
  import opened Wrappers
  import opened Finance
  import opened Grouping
  import opened Ranking
  import opened Labels
  import BudgetManagement
  import Text

  /** Which list a transaction came from; the record's `type` field ("income" or "expense"). */
  datatype Flow = Income | Expense

  datatype Entry = Entry(flow: Flow, t: Transaction)

  /** `netBalance / totalIncome * 100` when there is income, otherwise 0. */
  function SavingsRate(income: real, expenses: real): (rate: real)
    ensures income <= 0.0 ==> rate == 0.0
    ensures income > 0.0 ==> rate * income == (income - expenses) * 100.0
  {
    if income > 0.0 then RateOf(income - expenses, income) else 0.0
  }

  /** `net / income * 100` for a positive income. */
  function RateOf(net: real, income: real): (rate: real)
    requires income > 0.0
    ensures rate * income == net * 100.0
  {
    var q := net / income;
    assert q * income == net;
    q * 100.0
  }

  /** The four figures of updateStats. */
  datatype Stats = Stats(income: real, expenses: real, net: real, savingsRate: real)

  function StatsOf(d: FinancialData): (s: Stats)
    ensures s.income == Total(d.income) && s.expenses == Total(d.expenses)
    ensures s.net == s.income - s.expenses
    ensures s.income <= 0.0 ==> s.savingsRate == 0.0
    ensures s.income > 0.0 ==> s.savingsRate * s.income == s.net * 100.0
  {
    var income := Total(d.income);
    var expenses := Total(d.expenses);
    Stats(income, expenses, income - expenses, SavingsRate(income, expenses))
  }

  /** With income, the savings rate is at least `c` percent exactly when the net balance is at least `c` percent of the income. */
  lemma RateCompare(income: real, expenses: real, c: real)
    requires income > 0.0
    ensures SavingsRate(income, expenses) >= c <==> (income - expenses) * 100.0 >= c * income
    ensures SavingsRate(income, expenses) < c <==> (income - expenses) * 100.0 < c * income
  {
    var rate := SavingsRate(income, expenses);
    if rate >= c {
      assert rate * income >= c * income;
    } else {
      assert rate * income < c * income;
    }
  }

  /** The transactions of one list tagged with the list they come from. */
  function Tagged(xs: seq<Transaction>, flow: Flow): (r: seq<Entry>)
    ensures |r| == |xs|
    ensures forall i :: 0 <= i < |r| ==> r[i] == Entry(flow, xs[i])
  {
    seq(|xs|, i requires 0 <= i < |xs| => Entry(flow, xs[i]))
  }

  /** `[...income, ...expenses]`. */
  function AllEntries(d: FinancialData): seq<Entry>
  {
    Tagged(d.income, Income) + Tagged(d.expenses, Expense)
  }

  /** The sort key `new Date(t.date)`; date parsing is supplied by the caller. */
  function DateKey(time: string -> real): Entry -> real
  {
    (e: Entry) => time(e.t.date)
  }

  /** updateTransactionsList: newest first by date, then the first ten. */
  function Recent(d: FinancialData, time: string -> real): seq<Entry>
  {
    var sorted := SortDesc(AllEntries(d), DateKey(time));
    if |sorted| <= 10 then sorted else sorted[..10]
  }

  /** The recent list holds min(10, all) entries, newest first, each one taken from the merged list. */
  lemma RecentSpec(d: FinancialData, time: string -> real)
    ensures var all := AllEntries(d);
      |Recent(d, time)| == if |all| < 10 then |all| else 10
    ensures Descending(Recent(d, time), DateKey(time))
    ensures multiset(Recent(d, time)) <= multiset(AllEntries(d))
  {
    var all := AllEntries(d);
    var sorted := SortDesc(all, DateKey(time));
    var r := Recent(d, time);
    SortDescSpec(all, DateKey(time));
    assert sorted == r + sorted[|r|..];
    assert multiset(sorted) == multiset(r) + multiset(sorted[|r|..]);
  }

  /** Every entry shown keeps the tag of the list it comes from. */
  lemma RecentTags(d: FinancialData, time: string -> real)
    ensures forall e :: e in Recent(d, time) ==>
      (e.flow == Income && e.t in d.income) || (e.flow == Expense && e.t in d.expenses)
  {
    var all := AllEntries(d);
    var r := Recent(d, time);
    RecentSpec(d, time);
    forall e | e in r
      ensures (e.flow == Income && e.t in d.income) || (e.flow == Expense && e.t in d.expenses)
    {
      assert e in multiset(r);
      assert e in multiset(all);
      var i :| 0 <= i < |all| && all[i] == e;
      if i < |d.income| {
        assert all[i] == Entry(Income, d.income[i]);
      } else {
        assert all[i] == Entry(Expense, d.expenses[i - |d.income|]);
      }
    }
  }

  /** Every entry left out of the recent list is no newer than any entry it shows. */
  lemma RecentNewest(d: FinancialData, time: string -> real)
    ensures forall x :: x in AllEntries(d) && x !in Recent(d, time) ==>
      forall j :: 0 <= j < |Recent(d, time)| ==> DateKey(time)(x) <= DateKey(time)(Recent(d, time)[j])
  {
    var all := AllEntries(d);
    var key := DateKey(time);
    var sorted := SortDesc(all, key);
    var r := Recent(d, time);
    SortDescSpec(all, key);
    forall x, j | x in all && x !in r && 0 <= j < |r|
      ensures key(x) <= key(r[j])
    {
      assert x in multiset(sorted);
      var m :| 0 <= m < |sorted| && sorted[m] == x;
      assert r[j] == sorted[j];
    }
  }

  /** `Object.values(categoryData)`. */
  function Values(g: Totals): (vs: seq<real>)
    ensures |vs| == |g|
    ensures forall i :: 0 <= i < |g| ==> vs[i] == g[i].1
  {
    seq(|g|, i requires 0 <= i < |g| => g[i].1)
  }

  /** `Object.keys(categoryData).map(formatCategory)`. */
  function ShownKeys(g: Totals): (ls: seq<string>)
    ensures |ls| == |g|
    ensures forall i :: 0 <= i < |g| ==> ls[i] == FormatCategory(g[i].0)
  {
    seq(|g|, i requires 0 <= i < |g| => FormatCategory(g[i].0))
  }

  function SumOf(vs: seq<real>): real
  {
    if vs == [] then 0.0 else vs[0] + SumOf(vs[1..])
  }

  lemma {:induction false} SumOfValues(g: Totals)
    ensures SumOf(Values(g)) == Sum(g)
  {
    if g != [] {
      assert Values(g)[1..] == Values(g[1..]);
      SumOfValues(g[1..]);
    }
  }

  /** The doughnut chart: one label and one value per category of the expenses. */
  datatype Chart = Chart(labels: seq<string>, values: seq<real>)

  function CategoryChart(expenses: seq<Transaction>): (c: Chart)
    ensures |c.labels| == |c.values|
  {
    var g := ByCategory(expenses);
    Chart(ShownKeys(g), Values(g))
  }

  /**
   * Every slice is the total of one category of the expenses under its
   * display name, each category that occurs has exactly one slice, and the
   * slices add up to the total expenses.
   */
  lemma CategoryChartSpec(expenses: seq<Transaction>)
    ensures var g := ByCategory(expenses); var c := CategoryChart(expenses);
      |c.values| == |g| && DistinctKeys(g)
      && (forall i :: 0 <= i < |g| ==> c.labels[i] == FormatCategory(g[i].0) && c.values[i] == CategoryTotal(expenses, g[i].0))
      && (forall k :: k in Keys(g) <==> exists i :: 0 <= i < |expenses| && expenses[i].category == k)
    ensures SumOf(CategoryChart(expenses).values) == Total(expenses)
  {
    var g := ByCategory(expenses);
    ByCategorySpec(expenses);
    SumOfValues(g);
    forall i | 0 <= i < |g| ensures CategoryTotal(expenses, g[i].0) == g[i].1 {
      ValueAt(g, i);
    }
  }

  /** The month's total of one list: `filter(date.startsWith(monthKey)).reduce(+)`. */
  function MonthTotal(xs: seq<Transaction>, monthKey: string): real
  {
    BudgetManagement.MonthSpent(xs, monthKey, None)
  }

  /** A transaction added to a list counts in the month its date starts with and in no other. */
  lemma {:induction false} MonthTotalAppend(xs: seq<Transaction>, t: Transaction, monthKey: string)
    ensures MonthTotal(xs + [t], monthKey)
      == MonthTotal(xs, monthKey) + (if Text.StartsWith(t.date, monthKey) then t.amount else 0.0)
  {
    if xs == [] {
      assert [t][1..] == [];
    } else {
      assert (xs + [t])[1..] == xs[1..] + [t];
      MonthTotalAppend(xs[1..], t, monthKey);
    }
  }

  /** With no negative amounts a month's total lies between 0 and the list's total. */
  lemma {:induction false} MonthWithinTotal(xs: seq<Transaction>, monthKey: string)
    requires forall i :: 0 <= i < |xs| ==> xs[i].amount >= 0.0
    ensures 0.0 <= MonthTotal(xs, monthKey) <= Total(xs)
  {
    if xs != [] {
      MonthWithinTotal(xs[1..], monthKey);
    }
  }

  /** The tracker's state: the stored income, expenses and budgets. */
  class FinancialTracker {
    var data: FinancialData

    /** loadData: the saved record, or empty lists. */
    constructor(saved: Option<FinancialData>)
      ensures data == (if saved.Some? then saved.value else FinancialData([], [], []))
    {
      data := if saved.Some? then saved.value else FinancialData([], [], []);
    }

    /** handleIncomeSubmit: one new income with id `Date.now()`; expenses and budgets stay. */
    method HandleIncomeSubmit(now: int, amount: real, description: string, category: string, date: string)
      modifies this`data
      ensures data.income == old(data.income) + [Transaction(now, amount, description, category, date)]
      ensures data.expenses == old(data.expenses) && data.budgets == old(data.budgets)
    {
      data := data.(income := data.income + [Transaction(now, amount, description, category, date)]);
    }

    /** handleExpenseSubmit: one new expense with id `Date.now()`; income and budgets stay. */
    method HandleExpenseSubmit(now: int, amount: real, description: string, category: string, date: string)
      modifies this`data
      ensures data.expenses == old(data.expenses) + [Transaction(now, amount, description, category, date)]
      ensures data.income == old(data.income) && data.budgets == old(data.budgets)
    {
      data := data.(expenses := data.expenses + [Transaction(now, amount, description, category, date)]);
    }

    function Stats(): Stats
      reads this
    {
      StatsOf(data)
    }

    function RecentTransactions(time: string -> real): seq<Entry>
      reads this
    {
      Recent(data, time)
    }

    function CategoryData(): Chart
      reads this
    {
      CategoryChart(data.expenses)
    }

    /**
     * updateTrendChart: for i = 5 down to 0, the month `i` months back
     * (its "YYYY-MM" key and its short name come from the clock), with the
     * month's income and expense totals.
     */
    method TrendChart(monthKey: int -> string, monthName: int -> string)
      returns (months: seq<string>, incomeData: seq<real>, expenseData: seq<real>)
      ensures |months| == 6 && |incomeData| == 6 && |expenseData| == 6
      ensures forall j :: 0 <= j < 6 ==> months[j] == monthName(5 - j)
      ensures forall j :: 0 <= j < 6 ==> incomeData[j] == MonthTotal(data.income, monthKey(5 - j))
      ensures forall j :: 0 <= j < 6 ==> expenseData[j] == MonthTotal(data.expenses, monthKey(5 - j))
    {
      months, incomeData, expenseData := [], [], [];
      var i := 5;
      while i >= 0
        invariant -1 <= i <= 5
        invariant |months| == 5 - i && |incomeData| == 5 - i && |expenseData| == 5 - i
        invariant forall j :: 0 <= j < 5 - i ==> months[j] == monthName(5 - j)
        invariant forall j :: 0 <= j < 5 - i ==> incomeData[j] == MonthTotal(data.income, monthKey(5 - j))
        invariant forall j :: 0 <= j < 5 - i ==> expenseData[j] == MonthTotal(data.expenses, monthKey(5 - j))
      {
        var key := monthKey(i);
        months := months + [monthName(i)];
        incomeData := incomeData + [MonthTotal(data.income, key)];
        expenseData := expenseData + [MonthTotal(data.expenses, key)];
        i := i - 1;
      }
    }
  }

  /**
   * A submitted income raises the income total, and the trend figure of the
   * month its date falls in, by its amount; the expense figures stay.
   */
  lemma IncomeSubmitEffect(d: FinancialData, t: Transaction, monthKey: string)
    ensures var after := d.(income := d.income + [t]);
      StatsOf(after).income == StatsOf(d).income + t.amount
      && StatsOf(after).expenses == StatsOf(d).expenses
      && StatsOf(after).net == StatsOf(d).net + t.amount
    ensures MonthTotal(d.income + [t], monthKey)
      == MonthTotal(d.income, monthKey) + (if Text.StartsWith(t.date, monthKey) then t.amount else 0.0)
    ensures Entry(Income, t) in AllEntries(d.(income := d.income + [t]))
  {
    TotalConcat(d.income, [t]);
    MonthTotalAppend(d.income, t, monthKey);
    var after := d.(income := d.income + [t]);
    assert AllEntries(after)[|d.income|] == Entry(Income, t);
  }

  /**
   * A submitted expense raises the expense total by its amount and lowers the
   * net balance by it, and it appears in the category chart's total.
   */
  lemma ExpenseSubmitEffect(d: FinancialData, t: Transaction)
    ensures var after := d.(expenses := d.expenses + [t]);
      StatsOf(after).expenses == StatsOf(d).expenses + t.amount
      && StatsOf(after).income == StatsOf(d).income
      && StatsOf(after).net == StatsOf(d).net - t.amount
    ensures SumOf(CategoryChart(d.expenses + [t]).values) == SumOf(CategoryChart(d.expenses).values) + t.amount
    ensures Entry(Expense, t) in AllEntries(d.(expenses := d.expenses + [t]))
  {
    TotalConcat(d.expenses, [t]);
    CategoryChartSpec(d.expenses);
    CategoryChartSpec(d.expenses + [t]);
    var after := d.(expenses := d.expenses + [t]);
    assert AllEntries(after)[|d.income| + |d.expenses|] == Entry(Expense, t);
  }
}
