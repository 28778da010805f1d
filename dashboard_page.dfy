/**
 * The server-rendered dashboard.php: the user's income and expense totals,
 * the net balance and savings rate, the "Financial Overview" panel with its
 * empty state, its savings-rate tier and the highest spending category.
 */
module DashboardPage {
  import opened Wrappers
  import opened Store
  import Dashboard

  /** `SELECT SUM(amount) … WHERE user_id = ?` followed by `?? 0`: no rows give 0. */
  function UserTotal(rows: seq<Row>, user: int): real
  {
    if rows == [] then 0.0
    else (if rows[0].user == user then rows[0].amount else 0.0) + UserTotal(rows[1..], user)
  }

  /** Rows of other users never change a user's total. */
  lemma {:induction false} UserTotalOwnRows(rows: seq<Row>, other: seq<Row>, user: int)
    requires forall i :: 0 <= i < |other| ==> other[i].user != user
    ensures UserTotal(rows + other, user) == UserTotal(rows, user)
  {
    if rows == [] {
      assert rows + other == other;
      OthersCountZero(other, user);
    } else {
      assert (rows + other)[1..] == rows[1..] + other;
      UserTotalOwnRows(rows[1..], other, user);
    }
  }

  lemma {:induction false} OthersCountZero(rows: seq<Row>, user: int)
    requires forall i :: 0 <= i < |rows| ==> rows[i].user != user
    ensures UserTotal(rows, user) == 0.0
  {
    if rows != [] {
      OthersCountZero(rows[1..], user);
    }
  }

  /** One row of `SELECT category, SUM(amount) AS total … GROUP BY category`; the category column may be NULL. */
  datatype Group = Group(category: Option<string>, total: real)

  /** The state of the `foreach`: the index of the category taken so far and `$top_amount`. */
  datatype Top = Top(index: Option<nat>, amount: real)

  /** The `foreach` over the groups, from `$top_amount = 0`, taking a group only when its total is strictly larger. */
  function Best(groups: seq<Group>): (r: Top)
    ensures r.index.Some? ==> r.index.value < |groups|
  {
    if groups == [] then Top(None, 0.0)
    else
      var before := Best(groups[..|groups| - 1]);
      var last := groups[|groups| - 1];
      if last.total > before.amount then Top(Some(|groups| - 1), last.total) else before
  }

  /**
   * No category is taken when every total is at most 0; otherwise the one
   * taken has the largest total and every earlier group's total is strictly
   * smaller, so of several equal largest totals the first wins.
   */
  lemma {:induction false} BestSpec(groups: seq<Group>)
    ensures Best(groups).index.None? <==> forall i :: 0 <= i < |groups| ==> groups[i].total <= 0.0
    ensures Best(groups).index.None? ==> Best(groups).amount == 0.0
    ensures Best(groups).amount >= 0.0
    ensures forall j :: 0 <= j < |groups| ==> groups[j].total <= Best(groups).amount
    ensures Best(groups).index.Some? ==>
      groups[Best(groups).index.value].total == Best(groups).amount
      && forall j :: 0 <= j < Best(groups).index.value ==> groups[j].total < Best(groups).amount
  {
    if groups != [] {
      var init := groups[..|groups| - 1];
      BestSpec(init);
      assert forall j :: 0 <= j < |init| ==> init[j] == groups[j];
    }
  }

  /** The top-category loop of the overview panel. */
  method TopCategory(groups: seq<Group>) returns (top: Top)
    ensures top == Best(groups)
  {
    top := Top(None, 0.0);
    for i := 0 to |groups|
      invariant top == Best(groups[..i])
    {
      assert groups[..i + 1][..i] == groups[..i];
      if groups[i].total > top.amount {
        top := Top(Some(i), groups[i].total);
      }
    }
    assert groups[..|groups|] == groups;
  }

  /** PHP truthiness of `$top_category`: NULL, "" and "0" are false. */
  predicate Truthy(category: Option<string>)
  {
    category.Some? && category.value != "" && category.value != "0"
  }

  /** The highest-spending notice: the category taken and its amount, when the category is truthy. */
  function Highlight(groups: seq<Group>, top: Top): (h: Option<(string, real)>)
    requires top.index.Some? ==> top.index.value < |groups|
    ensures h.Some? ==>
      top.index.Some? && groups[top.index.value].category == Some(h.value.0)
      && Truthy(Some(h.value.0)) && h.value.1 == top.amount
  {
    match top.index
      case None => None
      case Some(i) => if Truthy(groups[i].category) then Some((groups[i].category.value, top.amount)) else None
  }

  /** The savings-rate advice shown in the overview. */
  datatype Tier = Excellent | Low | Moderate

  /** `>= 15` first, then `< 5`, otherwise the middle message. */
  function TierOf(rate: real): (t: Tier)
  {
    if rate >= 15.0 then Excellent else if rate < 5.0 then Low else Moderate
  }

  /**
   * In terms of the totals: with income the advice is "excellent" when
   * expenses are at most 85% of it and "low" when they are above 95%; with no
   * income the rate is 0 and the advice is "low".
   */
  lemma TierByTotals(income: real, expenses: real)
    ensures income > 0.0 ==>
      (TierOf(Dashboard.SavingsRate(income, expenses)) == Excellent <==> expenses * 100.0 <= 85.0 * income)
    ensures income > 0.0 ==>
      (TierOf(Dashboard.SavingsRate(income, expenses)) == Low <==> expenses * 100.0 > 95.0 * income)
    ensures income <= 0.0 ==> TierOf(Dashboard.SavingsRate(income, expenses)) == Low
  {
    if income > 0.0 {
      Dashboard.RateCompare(income, expenses, 15.0);
      Dashboard.RateCompare(income, expenses, 5.0);
    }
  }

  /** The "Financial Overview" panel. */
  datatype Panel = NoData | Advice(rate: real, tier: Tier, top: Option<(string, real)>)

  function PanelOf(income: real, expenses: real, groups: seq<Group>): (p: Panel)
  {
    if income == 0.0 && expenses == 0.0 then NoData
    else
      var rate := Dashboard.SavingsRate(income, expenses);
      Advice(rate, TierOf(rate), if expenses > 0.0 then Highlight(groups, Best(groups)) else None)
  }

  /**
   * The empty state shows exactly when both totals are 0; otherwise one tier
   * is chosen from the savings rate, and a highlighted category needs
   * positive expenses, is one of the groups with a truthy name, and carries
   * the largest group total.
   */
  lemma PanelSpec(income: real, expenses: real, groups: seq<Group>)
    ensures PanelOf(income, expenses, groups).NoData? <==> income == 0.0 && expenses == 0.0
    ensures var p := PanelOf(income, expenses, groups);
      p.Advice? ==> p.rate == Dashboard.SavingsRate(income, expenses) && p.tier == TierOf(p.rate)
    ensures var p := PanelOf(income, expenses, groups);
      p.Advice? && p.top.Some? ==>
        expenses > 0.0 && Truthy(Some(p.top.value.0)) && p.top.value.1 > 0.0
        && (exists i :: 0 <= i < |groups| && groups[i] == Group(Some(p.top.value.0), p.top.value.1))
        && forall j :: 0 <= j < |groups| ==> groups[j].total <= p.top.value.1
    ensures var p := PanelOf(income, expenses, groups);
      p.Advice? && expenses > 0.0 && (forall i :: 0 <= i < |groups| ==> groups[i].total <= 0.0) ==> p.top.None?
  {
    BestSpec(groups);
    var p := PanelOf(income, expenses, groups);
    if p.Advice? && p.top.Some? {
      var i := Best(groups).index.value;
      assert groups[i] == Group(Some(p.top.value.0), p.top.value.1);
    }
  }

  /** The page: totals from the two tables, then the overview panel. */
  method Render(db: Database, user: int, groups: seq<Group>) returns (s: Dashboard.Stats, panel: Panel)
    ensures s.income == UserTotal(db.income.rows, user) && s.expenses == UserTotal(db.expenses.rows, user)
    ensures s.net == s.income - s.expenses && s.savingsRate == Dashboard.SavingsRate(s.income, s.expenses)
    ensures panel == PanelOf(s.income, s.expenses, groups)
  {
    var income := UserTotal(db.income.rows, user);
    var expenses := UserTotal(db.expenses.rows, user);
    s := Dashboard.Stats(income, expenses, income - expenses, Dashboard.SavingsRate(income, expenses));
    if income == 0.0 && expenses == 0.0 {
      panel := NoData;
    } else {
      var rate := s.savingsRate;
      var highlight: Option<(string, real)> := None;
      if expenses > 0.0 {
        var top := TopCategory(groups);
        highlight := Highlight(groups, top);
      }
      panel := Advice(rate, TierOf(rate), highlight);
    }
  }
}
