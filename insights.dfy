/**
 * js/ai-analysis.js: the rule-based "AI insights" shown on the dashboard.
 * Six analyzers run in a fixed order and each pushes zero or more insights
 * (a tone, an icon and the figures its message shows). JavaScript division
 * is modelled with its infinities and NaN, because several rules divide by
 * totals that can be zero. The message texts are not modelled; the two
 * 30-day windows come from a clock given as a parameter.
 */
module Insights {
  import opened Wrappers
  import opened Finance
  import opened Grouping
  import opened Ranking

  /** A JavaScript number as these rules can produce it. */
  datatype JsNumber = Finite(v: real) | PosInf | NegInf | NaN

  /** `a / b` on doubles: a zero divisor gives an infinity of the dividend's sign, or NaN for 0 / 0. */
  function Div(a: real, b: real): JsNumber
  {
    if b != 0.0 then Finite(a / b)
    else if a > 0.0 then PosInf
    else if a < 0.0 then NegInf
    else NaN
  }

  /** Multiplication by a positive constant. */
  function Scale(x: JsNumber, c: real): JsNumber
    requires c > 0.0
  {
    match x
      case Finite(v) => Finite(v * c)
      case _ => x
  }

  /** `x > c`: false for NaN. */
  predicate Gt(x: JsNumber, c: real)
  {
    match x
      case Finite(v) => v > c
      case PosInf => true
      case _ => false
  }

  /** `x < c`: false for NaN. */
  predicate Lt(x: JsNumber, c: real)
  {
    match x
      case Finite(v) => v < c
      case NegInf => true
      case _ => false
  }

  function JsAbs(x: JsNumber): JsNumber
  {
    match x
      case Finite(v) => Finite(if v < 0.0 then -v else v)
      case NegInf => PosInf
      case _ => x
  }

  /** A percentage `a / b * 100` with a positive divisor exceeds `c` exactly when `a` exceeds `c` percent of `b`. */
  lemma PercentCompare(a: real, b: real, c: real)
    requires b > 0.0
    ensures Gt(Scale(Div(a, b), 100.0), c) <==> a * 100.0 > c * b
    ensures Lt(Scale(Div(a, b), 100.0), c) <==> a * 100.0 < c * b
  {
    var q := a / b;
    assert q * b == a;
    assert q * 100.0 * b == a * 100.0;
    if q * 100.0 > c {
      assert q * 100.0 * b > c * b;
    } else {
      assert q * 100.0 * b <= c * b;
    }
    if q * 100.0 < c {
      assert q * 100.0 * b < c * b;
    } else {
      assert q * 100.0 * b >= c * b;
    }
  }

  datatype Tone = Info | Warning | Success

  /** One insight: its type, its icon and the numbers its message interpolates. */
  datatype Insight = Insight(tone: Tone, icon: string, shown: seq<JsNumber>)

  /**
   * `new Date(date).getTime()` (None for an invalid date) and the two
   * cut-offs, 30 and 60 days before now.
   */
  datatype Clock = Clock(stamp: string -> Option<int>, cut30: int, cut60: int)

  function Where(xs: seq<Transaction>, p: Transaction -> bool): (r: seq<Transaction>)
    ensures forall x :: x in r <==> x in xs && p(x)
    ensures |r| <= |xs|
  {
    if xs == [] then [] else (if p(xs[0]) then [xs[0]] else []) + Where(xs[1..], p)
  }

  predicate InRecent(clock: Clock, t: Transaction)
  {
    clock.stamp(t.date).Some? && clock.stamp(t.date).value >= clock.cut30
  }

  predicate InPrevious(clock: Clock, t: Transaction)
  {
    clock.stamp(t.date).Some? && clock.stamp(t.date).value >= clock.cut60 && clock.stamp(t.date).value < clock.cut30
  }

  /** analyzeRecentTrends. */
  function TrendInsights(expenses: seq<Transaction>, clock: Clock): seq<Insight>
  {
    var recent := Where(expenses, t => InRecent(clock, t));
    var previous := Where(expenses, t => InPrevious(clock, t));
    if |recent| > 0 && |previous| > 0 then
      var change := Scale(Div(Total(recent) - Total(previous), Total(previous)), 100.0);
      if Gt(change, 25.0) then [Insight(Warning, "arrow-up", [change])]
      else if Lt(change, -15.0) then [Insight(Success, "arrow-down", [JsAbs(change)])]
      else []
    else []
  }

  /** The spending-ratio rule of analyzeStudentSpendingPatterns. */
  function RatioInsights(income: real, expenses: real): seq<Insight>
  {
    var ratio := Div(expenses, income);
    if Gt(ratio, 0.95) then [Insight(Warning, "exclamation-triangle", [Scale(ratio, 100.0)])]
    else if Lt(ratio, 0.6) then [Insight(Success, "thumbs-up", [Scale(ratio, 100.0)])]
    else []
  }

  /** analyzeStudentSpendingPatterns: with no expenses one starter tip and nothing else. */
  function SpendingInsights(d: FinancialData, clock: Clock): seq<Insight>
  {
    if Total(d.expenses) == 0.0 then [Insight(Info, "info-circle", [])]
    else RatioInsights(Total(d.income), Total(d.expenses)) + TrendInsights(d.expenses, clock)
  }

  /** analyzeSavingsRate. */
  function SavingsInsights(d: FinancialData): seq<Insight>
  {
    var income := Total(d.income);
    if income == 0.0 then []
    else
      var rate := (income - Total(d.expenses)) / income * 100.0;
      if rate < 5.0 then [Insight(Warning, "piggy-bank", [Finite(rate)])]
      else if rate >= 15.0 then [Insight(Success, "star", [Finite(rate)])]
      else [Insight(Info, "chart-line", [Finite(rate)])]
  }

  predicate IsAllowance(t: Transaction)
  {
    t.category == "allowance"
  }

  /** `["textbooks", "stationery"].includes(t.category)`. */
  predicate IsAcademic(t: Transaction)
  {
    t.category == "textbooks" || t.category == "stationery"
  }

  /** analyzeAllowanceManagement. */
  function AllowanceInsights(d: FinancialData): seq<Insight>
  {
    var allowance := Where(d.income, IsAllowance);
    if |allowance| > 0 then
      var n := if |allowance| > 1 then |allowance| else 1;
      var average := Total(allowance) / n as real;
      if average > 0.0 then [Insight(Info, "calendar-alt", [Finite(average)])] else []
    else []
  }

  /** analyzeStudentBudgetRecommendations: 60% essentials, 25% academic, 15% savings. */
  function GuideInsights(d: FinancialData): seq<Insight>
  {
    var income := Total(d.income);
    if income == 0.0 then []
    else [Insight(Info, "calculator", [Finite(income * 0.6), Finite(income * 0.25), Finite(income * 0.15)])]
  }

  function Amount(entry: (string, real)): real
  {
    entry.1
  }

  /** One threshold of checkStudentSpendingPatterns: the key's share of all spending above `limit` percent. */
  function ShareCheck(g: Totals, total: real, key: string, limit: real, tone: Tone, icon: string): seq<Insight>
  {
    var percent := Scale(Div(ValueOr0(g, key), total), 100.0);
    if Gt(percent, limit) then [Insight(tone, icon, [percent])] else []
  }

  /** checkStudentSpendingPatterns. */
  function PatternInsights(g: Totals, total: real): seq<Insight>
  {
    ShareCheck(g, total, "food", 35.0, Info, "utensils")
      + ShareCheck(g, total, "transportation", 20.0, Info, "car")
      + ShareCheck(g, total, "entertainment", 15.0, Warning, "film")
      + ShareCheck(g, total, "internet", 10.0, Info, "wifi")
  }

  /** The top-category rule of analyzeExpenseCategories, on the totals sorted largest first. */
  function TopInsights(sorted: Totals, total: real): seq<Insight>
  {
    if |sorted| > 0 then
      var percent := Scale(Div(sorted[0].1, total), 100.0);
      if Gt(percent, 40.0) then [Insight(Warning, "exclamation-circle", [percent])] else []
    else []
  }

  /** analyzeExpenseCategories. */
  function CategoryInsights(d: FinancialData): seq<Insight>
  {
    if |d.expenses| == 0 then []
    else
      var g := ByCategory(d.expenses);
      var total := Sum(g);
      TopInsights(SortDesc(g, Amount), total) + PatternInsights(g, total)
  }

  /** analyzeAcademicExpenses. */
  function AcademicInsights(d: FinancialData): seq<Insight>
  {
    var academic := Where(d.expenses, IsAcademic);
    if |academic| > 0 then
      var percent := Scale(Div(Total(academic), Total(d.expenses)), 100.0);
      if Lt(percent, 10.0) then [Insight(Info, "book", [percent])]
      else if Gt(percent, 25.0) then [Insight(Info, "book-open", [percent])]
      else []
    else [Insight(Info, "graduation-cap", [])]
  }

  /** generateInsights: the six analyzers in order. */
  function AllInsights(d: FinancialData, clock: Clock): seq<Insight>
  {
    SpendingInsights(d, clock) + SavingsInsights(d) + AllowanceInsights(d) + GuideInsights(d)
      + CategoryInsights(d) + AcademicInsights(d)
  }

  class AIAnalysis {
    var data: FinancialData
    var insights: seq<Insight>

    constructor(data: FinancialData)
      ensures this.data == data && insights == []
    {
      this.data := data;
      insights := [];
    }

    /** generateInsights: clears the list, runs every analyzer and returns what they pushed. */
    method GenerateInsights(clock: Clock) returns (r: seq<Insight>)
      modifies this`insights
      ensures insights == AllInsights(data, clock) && r == insights
    {
      insights := [];
      AnalyzeStudentSpendingPatterns(clock);
      assert insights == SpendingInsights(data, clock);
      AnalyzeSavingsRate();
      AnalyzeAllowanceManagement();
      AnalyzeStudentBudgetRecommendations();
      AnalyzeExpenseCategories();
      AnalyzeAcademicExpenses();
      r := insights;
    }

    method AnalyzeStudentSpendingPatterns(clock: Clock)
      modifies this`insights
      ensures insights == old(insights) + SpendingInsights(data, clock)
    {
      var totalIncome := Total(data.income);
      var totalExpenses := Total(data.expenses);
      if totalExpenses == 0.0 {
        insights := insights + [Insight(Info, "info-circle", [])];
        return;
      }
      var spendingRatio := Div(totalExpenses, totalIncome);
      if Gt(spendingRatio, 0.95) {
        insights := insights + [Insight(Warning, "exclamation-triangle", [Scale(spendingRatio, 100.0)])];
      } else if Lt(spendingRatio, 0.6) {
        insights := insights + [Insight(Success, "thumbs-up", [Scale(spendingRatio, 100.0)])];
      }
      AnalyzeRecentTrends(clock);
    }

    method AnalyzeRecentTrends(clock: Clock)
      modifies this`insights
      ensures insights == old(insights) + TrendInsights(data.expenses, clock)
    {
      var recentExpenses := Where(data.expenses, t => InRecent(clock, t));
      var previousExpenses := Where(data.expenses, t => InPrevious(clock, t));
      if |recentExpenses| > 0 && |previousExpenses| > 0 {
        var recentTotal := Total(recentExpenses);
        var previousTotal := Total(previousExpenses);
        var changePercent := Scale(Div(recentTotal - previousTotal, previousTotal), 100.0);
        if Gt(changePercent, 25.0) {
          insights := insights + [Insight(Warning, "arrow-up", [changePercent])];
        } else if Lt(changePercent, -15.0) {
          insights := insights + [Insight(Success, "arrow-down", [JsAbs(changePercent)])];
        }
      }
    }

    method AnalyzeSavingsRate()
      modifies this`insights
      ensures insights == old(insights) + SavingsInsights(data)
    {
      var totalIncome := Total(data.income);
      var totalExpenses := Total(data.expenses);
      if totalIncome == 0.0 {
        return;
      }
      var savingsRate := (totalIncome - totalExpenses) / totalIncome * 100.0;
      if savingsRate < 5.0 {
        insights := insights + [Insight(Warning, "piggy-bank", [Finite(savingsRate)])];
      } else if savingsRate >= 15.0 {
        insights := insights + [Insight(Success, "star", [Finite(savingsRate)])];
      } else {
        insights := insights + [Insight(Info, "chart-line", [Finite(savingsRate)])];
      }
    }

    method AnalyzeAllowanceManagement()
      modifies this`insights
      ensures insights == old(insights) + AllowanceInsights(data)
    {
      var allowanceIncome := Where(data.income, IsAllowance);
      if |allowanceIncome| > 0 {
        var totalAllowance := Total(allowanceIncome);
        var n := if |allowanceIncome| > 1 then |allowanceIncome| else 1;
        var avgMonthlyAllowance := totalAllowance / n as real;
        if avgMonthlyAllowance > 0.0 {
          insights := insights + [Insight(Info, "calendar-alt", [Finite(avgMonthlyAllowance)])];
        }
      }
    }

    method AnalyzeStudentBudgetRecommendations()
      modifies this`insights
      ensures insights == old(insights) + GuideInsights(data)
    {
      var totalIncome := Total(data.income);
      if totalIncome == 0.0 {
        return;
      }
      var essentials := totalIncome * 0.6;
      var academic := totalIncome * 0.25;
      var savings := totalIncome * 0.15;
      insights := insights + [Insight(Info, "calculator", [Finite(essentials), Finite(academic), Finite(savings)])];
    }

    method AnalyzeExpenseCategories()
      modifies this`insights
      ensures insights == old(insights) + CategoryInsights(data)
    {
      if |data.expenses| == 0 {
        return;
      }
      var categoryTotals := ByCategory(data.expenses);
      var totalExpenses := Sum(categoryTotals);
      var sortedCategories := SortDesc(categoryTotals, Amount);
      if |sortedCategories| > 0 {
        var percentage := Scale(Div(sortedCategories[0].1, totalExpenses), 100.0);
        if Gt(percentage, 40.0) {
          insights := insights + [Insight(Warning, "exclamation-circle", [percentage])];
        }
      }
      insights := insights + PatternInsights(categoryTotals, totalExpenses);
    }

    method AnalyzeAcademicExpenses()
      modifies this`insights
      ensures insights == old(insights) + AcademicInsights(data)
    {
      var academicExpenses := Where(data.expenses, IsAcademic);
      if |academicExpenses| > 0 {
        var totalAcademic := Total(academicExpenses);
        var totalExpenses := Total(data.expenses);
        var academicPercent := Scale(Div(totalAcademic, totalExpenses), 100.0);
        if Lt(academicPercent, 10.0) {
          insights := insights + [Insight(Info, "book", [academicPercent])];
        } else if Gt(academicPercent, 25.0) {
          insights := insights + [Insight(Info, "book-open", [academicPercent])];
        }
      } else {
        insights := insights + [Insight(Info, "graduation-cap", [])];
      }
    }
  }

  /** With no expenses recorded the spending analysis gives its one starter tip and skips the trend rule. */
  lemma NoExpensesStarterTip(d: FinancialData, clock: Clock)
    requires Total(d.expenses) == 0.0
    ensures SpendingInsights(d, clock) == [Insight(Info, "info-circle", [])]
  {
  }

  /** With no income, any positive spending counts as an infinite ratio and draws the overspending warning. */
  lemma NoIncomeWarns(d: FinancialData, clock: Clock)
    requires Total(d.income) == 0.0 && Total(d.expenses) > 0.0
    ensures SpendingInsights(d, clock)[0] == Insight(Warning, "exclamation-triangle", [PosInf])
  {
  }

  /**
   * With positive income, the savings analysis adds exactly one insight: a
   * warning exactly when spending is above 95% of income, a success exactly
   * when it is at most 85%, and otherwise the neutral tip.
   */
  lemma SavingsTiers(d: FinancialData)
    requires Total(d.income) > 0.0
    ensures |SavingsInsights(d)| == 1
    ensures SavingsInsights(d)[0].tone == Warning <==> Total(d.expenses) > 0.95 * Total(d.income)
    ensures SavingsInsights(d)[0].tone == Success <==> Total(d.expenses) <= 0.85 * Total(d.income)
  {
    var income := Total(d.income);
    var expenses := Total(d.expenses);
    RateBelow(income, expenses, 5.0);
    RateBelow(income, expenses, 15.0);
  }

  /** A quotient with a positive divisor exceeds, or falls below, `c` exactly when the dividend does `c` times the divisor. */
  lemma QuotientCompare(a: real, b: real, c: real)
    requires b > 0.0
    ensures Gt(Div(a, b), c) <==> a > c * b
    ensures Lt(Div(a, b), c) <==> a < c * b
  {
    var q := a / b;
    assert q * b == a;
    if q > c {
      assert q * b > c * b;
    } else {
      assert q * b <= c * b;
    }
    if q < c {
      assert q * b < c * b;
    } else {
      assert q * b >= c * b;
    }
  }

  /**
   * With income, the spending-ratio rule adds at most one insight: a
   * warning exactly when spending is above 95% of income, a success
   * exactly when it is below 60%.
   */
  lemma RatioRule(income: real, expenses: real)
    requires income > 0.0
    ensures |RatioInsights(income, expenses)| <= 1
    ensures RatioInsights(income, expenses) != [] && RatioInsights(income, expenses)[0].tone == Warning
            <==> expenses > 0.95 * income
    ensures RatioInsights(income, expenses) != [] && RatioInsights(income, expenses)[0].tone == Success
            <==> expenses < 0.6 * income
  {
    QuotientCompare(expenses, income, 0.95);
    QuotientCompare(expenses, income, 0.6);
  }

  /**
   * With spending in both 30-day windows and a positive earlier total, the
   * trend rule warns exactly when recent spending is more than 25% above
   * the earlier window's, and reports a success exactly when it is more
   * than 15% below it.
   */
  lemma TrendRule(expenses: seq<Transaction>, clock: Clock)
    requires |Where(expenses, t => InRecent(clock, t))| > 0
    requires |Where(expenses, t => InPrevious(clock, t))| > 0
    requires Total(Where(expenses, t => InPrevious(clock, t))) > 0.0
    ensures |TrendInsights(expenses, clock)| <= 1
    ensures TrendInsights(expenses, clock) != [] && TrendInsights(expenses, clock)[0].tone == Warning
            <==> Total(Where(expenses, t => InRecent(clock, t))) > 1.25 * Total(Where(expenses, t => InPrevious(clock, t)))
    ensures TrendInsights(expenses, clock) != [] && TrendInsights(expenses, clock)[0].tone == Success
            <==> Total(Where(expenses, t => InRecent(clock, t))) < 0.85 * Total(Where(expenses, t => InPrevious(clock, t)))
  {
    var recent := Total(Where(expenses, t => InRecent(clock, t)));
    var previous := Total(Where(expenses, t => InPrevious(clock, t)));
    PercentCompare(recent - previous, previous, 25.0);
    PercentCompare(recent - previous, previous, -15.0);
  }

  /**
   * With academic spending and a positive spending total, the academic rule
   * gives the "book" note exactly when academic spending is below 10% of
   * all spending, and the "book-open" note exactly when it is above 25%.
   */
  lemma AcademicRule(d: FinancialData)
    requires |Where(d.expenses, IsAcademic)| > 0 && Total(d.expenses) > 0.0
    ensures |AcademicInsights(d)| <= 1
    ensures AcademicInsights(d) != [] && AcademicInsights(d)[0].icon == "book"
            <==> Total(Where(d.expenses, IsAcademic)) < 0.1 * Total(d.expenses)
    ensures AcademicInsights(d) != [] && AcademicInsights(d)[0].icon == "book-open"
            <==> Total(Where(d.expenses, IsAcademic)) > 0.25 * Total(d.expenses)
  {
    PercentCompare(Total(Where(d.expenses, IsAcademic)), Total(d.expenses), 10.0);
    PercentCompare(Total(Where(d.expenses, IsAcademic)), Total(d.expenses), 25.0);
  }

  /** A savings rate below `c` percent means spending above `100 - c` percent of income. */
  lemma RateBelow(income: real, expenses: real, c: real)
    requires income > 0.0
    ensures (income - expenses) / income * 100.0 < c <==> expenses * 100.0 > (100.0 - c) * income
  {
    var q := (income - expenses) / income;
    assert q * income == income - expenses;
    ScaledBelow(q * 100.0, c, income);
    assert q * 100.0 * income == (income - expenses) * 100.0;
  }

  /** Multiplying by a positive number keeps the order. */
  lemma ScaledBelow(x: real, y: real, b: real)
    requires b > 0.0
    ensures x < y <==> x * b < y * b
  {
    if x < y {
      assert (y - x) * b > 0.0;
    } else {
      assert (x - y) * b >= 0.0;
    }
  }

  /**
   * With positive income and some spending, the spending-ratio warning and
   * the savings-rate warning fire together: both say spending is above 95%
   * of income.
   */
  lemma WarningsAgree(d: FinancialData, clock: Clock)
    requires Total(d.income) > 0.0 && Total(d.expenses) != 0.0
    ensures var s := SpendingInsights(d, clock);
      (|s| > 0 && s[0].icon == "exclamation-triangle") <==> SavingsInsights(d)[0].tone == Warning
  {
    var income := Total(d.income);
    var expenses := Total(d.expenses);
    SavingsTiers(d);
    var q := expenses / income;
    RatioAbove(expenses, income, 0.95);
    var ratio := RatioInsights(income, expenses);
    var trend := TrendInsights(d.expenses, clock);
    var s := SpendingInsights(d, clock);
    assert s == ratio + trend;
    if q <= 0.95 {
      assert ratio == [] || ratio[0].icon == "thumbs-up";
      if ratio != [] {
        assert s[0] == ratio[0];
      } else {
        assert s == trend;
        assert trend == [] || trend[0].icon == "arrow-up" || trend[0].icon == "arrow-down";
      }
    } else {
      assert Div(expenses, income) == Finite(q);
      assert ratio[0].icon == "exclamation-triangle";
      assert s[0] == ratio[0];
    }
  }

  /** A ratio to a positive divisor exceeds `c` exactly when the dividend exceeds `c` times the divisor. */
  lemma RatioAbove(a: real, b: real, c: real)
    requires b > 0.0
    ensures a / b > c <==> a > c * b
  {
    var q := a / b;
    assert q * b == a;
    ScaledBelow(c, q, b);
  }

  /** The budget guide's three parts add up to the income. */
  lemma GuideSplitsIncome(d: FinancialData)
    requires Total(d.income) != 0.0
    ensures var g := GuideInsights(d)[0].shown;
      |g| == 3 && g[0].Finite? && g[1].Finite? && g[2].Finite? && g[0].v + g[1].v + g[2].v == Total(d.income)
  {
  }

  /** The trend rule needs spending in both windows. */
  lemma TrendNeedsBothWindows(expenses: seq<Transaction>, clock: Clock)
    requires (forall k :: 0 <= k < |expenses| ==> !InRecent(clock, expenses[k]))
          || (forall k :: 0 <= k < |expenses| ==> !InPrevious(clock, expenses[k]))
    ensures TrendInsights(expenses, clock) == []
  {
    if forall k :: 0 <= k < |expenses| ==> !InRecent(clock, expenses[k]) {
      WhereNone(expenses, t => InRecent(clock, t));
    } else {
      WhereNone(expenses, t => InPrevious(clock, t));
    }
  }

  lemma {:induction false} WhereNone(xs: seq<Transaction>, p: Transaction -> bool)
    requires forall k :: 0 <= k < |xs| ==> !p(xs[k])
    ensures Where(xs, p) == []
  {
    if xs != [] {
      WhereNone(xs[1..], p);
    }
  }

  /**
   * The first of the sorted category totals is a category of the expenses
   * with the largest total.
   */
  lemma TopIsLargest(expenses: seq<Transaction>)
    requires |expenses| > 0
    ensures var sorted := SortDesc(ByCategory(expenses), Amount);
      |sorted| > 0 && sorted[0].0 in Keys(ByCategory(expenses))
      && sorted[0].1 == CategoryTotal(expenses, sorted[0].0)
      && forall k :: k in Keys(ByCategory(expenses)) ==> CategoryTotal(expenses, k) <= sorted[0].1
    ensures Sum(ByCategory(expenses)) == Total(expenses)
  {
    var g := ByCategory(expenses);
    ByCategorySpec(expenses);
    SortDescSpec(g, Amount);
    var sorted := SortDesc(g, Amount);
    assert expenses[0].category in Keys(g);
    assert sorted[0] in multiset(g);
    var i :| 0 <= i < |g| && g[i] == sorted[0];
    ValueAt(g, i);
    forall k | k in Keys(g) ensures CategoryTotal(expenses, k) <= sorted[0].1 {
      var j := KeyIndex(g, k);
      ValueAt(g, j);
      assert g[j] in multiset(sorted);
      var m :| 0 <= m < |sorted| && sorted[m] == g[j];
      if m > 0 {
        assert Amount(sorted[0]) >= Amount(sorted[m]);
      }
    }
  }

  /** Where a present key sits. */
  lemma {:induction false} KeyIndex(g: Totals, k: string) returns (i: nat)
    requires k in Keys(g)
    ensures i < |g| && g[i].0 == k
  {
    if g[0].0 == k {
      i := 0;
    } else {
      var j := KeyIndex(g[1..], k);
      i := j + 1;
    }
  }

  /**
   * With positive total spending, the top-category warning appears exactly
   * when some category takes more than 40% of the spending.
   */
  lemma TopWarning(d: FinancialData)
    requires |d.expenses| > 0 && Total(d.expenses) > 0.0
    ensures var g := ByCategory(d.expenses);
      |TopInsights(SortDesc(g, Amount), Sum(g))| == 1
      <==> exists k :: k in Keys(g) && CategoryTotal(d.expenses, k) * 100.0 > 40.0 * Total(d.expenses)
  {
    var g := ByCategory(d.expenses);
    var total := Total(d.expenses);
    TopIsLargest(d.expenses);
    var sorted := SortDesc(g, Amount);
    TopRule(sorted, total);
    var top := sorted[0];
    if exists k :: k in Keys(g) && CategoryTotal(d.expenses, k) * 100.0 > 40.0 * total {
      var k :| k in Keys(g) && CategoryTotal(d.expenses, k) * 100.0 > 40.0 * total;
      assert CategoryTotal(d.expenses, k) <= top.1;
    }
  }

  /** On sorted totals with a positive sum, the rule fires exactly when the first total is above 40% of it. */
  lemma TopRule(sorted: Totals, total: real)
    requires |sorted| > 0 && total > 0.0
    ensures |TopInsights(sorted, total)| == 1 <==> sorted[0].1 * 100.0 > 40.0 * total
  {
    PercentCompare(sorted[0].1, total, 40.0);
  }

  /** How many insights each analyzer can add. */
  lemma AnalyzerBounds(d: FinancialData, clock: Clock)
    ensures |TrendInsights(d.expenses, clock)| <= 1
    ensures |SpendingInsights(d, clock)| <= 2
    ensures |SavingsInsights(d)| <= 1 && |AllowanceInsights(d)| <= 1 && |GuideInsights(d)| <= 1
    ensures |CategoryInsights(d)| <= 5 && |AcademicInsights(d)| <= 1
  {
  }

  /** Generating insights always yields at least one and at most eleven. */
  lemma InsightCount(d: FinancialData, clock: Clock)
    ensures 1 <= |AllInsights(d, clock)| <= 11
  {
    AnalyzerBounds(d, clock);
    var income := Total(d.income);
    var expenses := Total(d.expenses);
    var spending := SpendingInsights(d, clock);
    var savings := SavingsInsights(d);
    assert |AllInsights(d, clock)| == |spending| + |savings| + |AllowanceInsights(d)| + |GuideInsights(d)|
      + |CategoryInsights(d)| + |AcademicInsights(d)|;
    if expenses != 0.0 && income == 0.0 {
      assert |RatioInsights(income, expenses)| == 1;
      assert |spending| >= 1;
    } else if income != 0.0 {
      assert |savings| == 1;
    }
  }

  /** No expenses recorded: no category insight, and the academic analysis gives its one reminder. */
  lemma NoExpensesCategories(d: FinancialData)
    requires |d.expenses| == 0
    ensures CategoryInsights(d) == []
    ensures AcademicInsights(d) == [Insight(Info, "graduation-cap", [])]
  {
  }

  /** The academic analysis adds at most one insight, and exactly the reminder when no academic expense exists. */
  lemma AcademicAtMostOne(d: FinancialData)
    ensures |AcademicInsights(d)| <= 1
    ensures (forall k :: 0 <= k < |d.expenses| ==> d.expenses[k].category != "textbooks" && d.expenses[k].category != "stationery")
      ==> AcademicInsights(d) == [Insight(Info, "graduation-cap", [])]
  {
    var academic := Where(d.expenses, IsAcademic);
    if |academic| > 0 {
      assert academic[0] in d.expenses;
    }
  }
}
