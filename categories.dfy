/**
 * js/categories.js: the student category manager. It keeps an expense and
 * an income list of categories (the built-in defaults until the user saves
 * their own), edits and appends from the category form, deletes custom
 * categories and totals the stored transactions per category. `Date.now()`
 * is a parameter.
 */
module Categories {
  import opened Wrappers
  import opened Text
  import opened Finance
  import opened Ranking

  datatype Category = Category(id: int, name: string, icon: string, color: string, isDefault: bool)

  /** The form's hidden `categoryType`: which list a submit or delete works on. */
  datatype Kind = Expense | Income

  datatype CategorySet = CategorySet(expense: seq<Category>, income: seq<Category>)
  {
    function Of(kind: Kind): seq<Category>
    {
      match kind
        case Expense => expense
        case Income => income
    }

    function With(kind: Kind, list: seq<Category>): (r: CategorySet)
      ensures r.Of(kind) == list
      ensures forall other :: other != kind ==> r.Of(other) == Of(other)
    {
      match kind
        case Expense => this.(expense := list)
        case Income => this.(income := list)
    }
  }

  /** No two categories of a list share an id. */
  predicate UniqueIds(list: seq<Category>)
  {
    forall i, j :: 0 <= i < j < |list| ==> list[i].id != list[j].id
  }

  function Builtin(id: int, name: string, icon: string, color: string): Category
  {
    Category(id, name, icon, color, true)
  }

  /** getDefaultStudentCategories. */
  function DefaultStudentCategories(): (d: CategorySet)
    ensures |d.expense| == 11 && |d.income| == 6
    ensures forall k :: 0 <= k < |d.expense| ==> d.expense[k].isDefault && d.expense[k].id == k + 1
    ensures forall k :: 0 <= k < |d.income| ==> d.income[k].isDefault && d.income[k].id == k + 1
  {
    CategorySet(
      [ Builtin(1, "Food & Meals", "fas fa-utensils", "red"),
        Builtin(2, "Transportation", "fas fa-bus", "blue"),
        Builtin(3, "Textbooks & Materials", "fas fa-book", "green"),
        Builtin(4, "Accommodation", "fas fa-home", "purple"),
        Builtin(5, "Internet & Data", "fas fa-wifi", "yellow"),
        Builtin(6, "Stationery", "fas fa-pen", "pink"),
        Builtin(7, "Laundry", "fas fa-tshirt", "indigo"),
        Builtin(8, "Entertainment", "fas fa-film", "orange"),
        Builtin(9, "Clothing", "fas fa-shopping-bag", "teal"),
        Builtin(10, "Healthcare", "fas fa-heartbeat", "rose"),
        Builtin(11, "Other", "fas fa-question", "gray") ],
      [ Builtin(1, "Monthly Allowance", "fas fa-wallet", "green"),
        Builtin(2, "Scholarship", "fas fa-graduation-cap", "blue"),
        Builtin(3, "Part-time Job", "fas fa-briefcase", "purple"),
        Builtin(4, "Gift/Support", "fas fa-gift", "pink"),
        Builtin(5, "Freelance Work", "fas fa-laptop", "orange"),
        Builtin(6, "Other", "fas fa-hand-holding-usd", "yellow") ])
  }

  /** `findIndex((c) => c.id === id)`. */
  function IdIndex(list: seq<Category>, id: int): (r: Option<nat>)
    ensures r.Some? ==> r.value < |list| && list[r.value].id == id
    ensures r.Some? ==> forall k :: 0 <= k < r.value ==> list[k].id != id
    ensures r.None? <==> forall k :: 0 <= k < |list| ==> list[k].id != id
  {
    if list == [] then None
    else if list[0].id == id then Some(0)
    else match IdIndex(list[1..], id)
      case None => None
      case Some(i) => Some(i + 1)
  }

  /**
   * The list after a category form submit. A non-empty `editingId` is read
   * with parseInt; the first category with that id is replaced, and nothing
   * changes when the id does not parse (NaN) or matches no category. An
   * empty `editingId` appends a new category with id `now`. A submitted
   * category is never a default one.
   */
  function Submitted(list: seq<Category>, name: string, icon: string, color: string, editingId: string, now: int): seq<Category>
  {
    if editingId != [] then
      match LeadingInt(editingId)
        case None => list
        case Some(id) =>
          match IdIndex(list, id)
            case None => list
            case Some(i) => list[i := Category(id, name, icon, color, false)]
    else list + [Category(now, name, icon, color, false)]
  }

  /** `filter((c) => c.id !== id)`. */
  function WithoutId(list: seq<Category>, id: int): (r: seq<Category>)
    ensures forall c :: c in r <==> c in list && c.id != id
  {
    if list == [] then []
    else if list[0].id == id then WithoutId(list[1..], id)
    else [list[0]] + WithoutId(list[1..], id)
  }

  /** deleteCategory: the first category with the id must exist, be custom, and the user must confirm. */
  function Deleted(list: seq<Category>, id: int, confirmed: bool): seq<Category>
  {
    match IdIndex(list, id)
      case None => list
      case Some(i) => if !list[i].isDefault && confirmed then WithoutId(list, id) else list
  }

  /** A category's transaction key: lower case, whitespace and `&` removed. */
  function Key(name: string): string
  {
    RemoveChars(RemoveChars(ToLower(name), SpaceChars), {'&'})
  }

  /** The second accepted key: lower case with whitespace removed, `&` kept. */
  function LooseKey(name: string): string
  {
    RemoveChars(ToLower(name), SpaceChars)
  }

  /** The transactions filed under a category, in stored order. */
  function Matching(ts: seq<Transaction>, c: Category): (r: seq<Transaction>)
    ensures forall t :: t in r <==> t in ts && (t.category == Key(c.name) || t.category == LooseKey(c.name))
    ensures |r| <= |ts|
  {
    if ts == [] then []
    else if ts[0].category == Key(c.name) || ts[0].category == LooseKey(c.name) then [ts[0]] + Matching(ts[1..], c)
    else Matching(ts[1..], c)
  }

  /** One statistics card. */
  datatype Stat = Stat(name: string, icon: string, color: string, total: real, count: nat, kind: Kind)

  function StatOf(c: Category, ts: seq<Transaction>, kind: Kind): Stat
  {
    var m := Matching(ts, c);
    Stat(c.name, c.icon, c.color, Total(m), |m|, kind)
  }

  /** The `forEach` over one list: a card for every category whose total is positive, in list order. */
  function Collected(cats: seq<Category>, ts: seq<Transaction>, kind: Kind): seq<Stat>
  {
    if cats == [] then []
    else
      var s := StatOf(cats[|cats| - 1], ts, kind);
      Collected(cats[..|cats| - 1], ts, kind) + (if s.total > 0.0 then [s] else [])
  }

  function StatTotal(s: Stat): real
  {
    s.total
  }

  /** The category page's state: both category lists and the stored transactions. */
  class CategoryManager {
    var categories: CategorySet
    var transactions: FinancialData

    /** loadCategories and loadTransactions: saved categories replace the defaults wholesale. */
    constructor(saved: Option<CategorySet>, data: Option<FinancialData>)
      ensures categories == (if saved.Some? then saved.value else DefaultStudentCategories())
      ensures transactions == (if data.Some? then data.value else FinancialData([], [], []))
    {
      categories := if saved.Some? then saved.value else DefaultStudentCategories();
      transactions := if data.Some? then data.value else FinancialData([], [], []);
    }

    /** handleCategorySubmit; only the list of `kind` changes. */
    method HandleCategorySubmit(kind: Kind, name: string, icon: string, color: string, editingId: string, now: int)
      modifies this`categories
      ensures categories == old(categories).With(kind, Submitted(old(categories).Of(kind), name, icon, color, editingId, now))
    {
      var list := categories.Of(kind);
      ghost var submitted := Submitted(list, name, icon, color, editingId, now);
      var category := Category(now, name, icon, color, false);
      if editingId != [] {
        var parsed := LeadingInt(editingId);
        if parsed.Some? {
          category := category.(id := parsed.value);
          var index := IdIndex(list, parsed.value);
          if index.Some? {
            list := list[index.value := category];
          }
        }
      } else {
        list := list + [category];
      }
      assert list == submitted;
      categories := categories.With(kind, list);
    }

    /** deleteCategory. */
    method DeleteCategory(kind: Kind, id: int, confirmed: bool)
      modifies this`categories
      ensures categories == old(categories).With(kind, Deleted(old(categories).Of(kind), id, confirmed))
    {
      var list := categories.Of(kind);
      var index := IdIndex(list, id);
      if index.Some? && !list[index.value].isDefault && confirmed {
        categories := categories.With(kind, WithoutId(list, id));
      }
    }

    /** editCategory: the category whose values fill the form, if the id is known. */
    method EditCategory(kind: Kind, id: int) returns (found: Option<Category>)
      ensures found.None? <==> forall k :: 0 <= k < |categories.Of(kind)| ==> categories.Of(kind)[k].id != id
      ensures found.Some? ==> found.value in categories.Of(kind) && found.value.id == id
      ensures found.Some? ==> exists k :: 0 <= k < |categories.Of(kind)| && categories.Of(kind)[k] == found.value
                                          && forall j :: 0 <= j < k ==> categories.Of(kind)[j].id != id
    {
      var index := IdIndex(categories.Of(kind), id);
      found := if index.Some? then Some(categories.Of(kind)[index.value]) else None;
    }

    /** calculateCategoryStats: expense cards, then income cards, then sorted by total, largest first. */
    method CalculateCategoryStats() returns (stats: seq<Stat>)
      ensures stats == SortDesc(Collected(categories.expense, transactions.expenses, Expense)
                                + Collected(categories.income, transactions.income, Income), StatTotal)
    {
      var expense := categories.expense;
      var income := categories.income;
      stats := [];
      for i := 0 to |expense|
        invariant stats == Collected(expense[..i], transactions.expenses, Expense)
      {
        assert expense[..i + 1][..i] == expense[..i];
        var s := StatOf(expense[i], transactions.expenses, Expense);
        if s.total > 0.0 {
          stats := stats + [s];
        }
      }
      assert expense[..|expense|] == expense;
      ghost var first := stats;
      for i := 0 to |income|
        invariant stats == first + Collected(income[..i], transactions.income, Income)
      {
        assert income[..i + 1][..i] == income[..i];
        var s := StatOf(income[i], transactions.income, Income);
        if s.total > 0.0 {
          stats := stats + [s];
        }
      }
      assert income[..|income|] == income;
      stats := SortDesc(stats, StatTotal);
    }
  }

  /**
   * Editing replaces the first category with the parsed id by the submitted
   * one, keeping the length; an id that does not parse or matches nothing
   * leaves the list as it is; an empty id appends exactly one category.
   */
  lemma SubmitChanges(list: seq<Category>, name: string, icon: string, color: string, editingId: string, now: int)
    ensures var r := Submitted(list, name, icon, color, editingId, now);
      editingId != [] ==> |r| == |list|
    ensures var r := Submitted(list, name, icon, color, editingId, now);
      editingId != [] && (LeadingInt(editingId).None? || forall k :: 0 <= k < |list| ==> list[k].id != LeadingInt(editingId).value) ==>
        r == list
    ensures var r := Submitted(list, name, icon, color, editingId, now);
      editingId != [] && LeadingInt(editingId).Some? ==>
        forall i :: (0 <= i < |list| && list[i].id == LeadingInt(editingId).value
                     && (forall k :: 0 <= k < i ==> list[k].id != list[i].id)) ==>
          r == list[i := Category(list[i].id, name, icon, color, false)]
    ensures var r := Submitted(list, name, icon, color, editingId, now);
      editingId == [] ==> r == list + [Category(now, name, icon, color, false)]
  {
    var r := Submitted(list, name, icon, color, editingId, now);
    if editingId != [] && LeadingInt(editingId).Some? {
      var id := LeadingInt(editingId).value;
      forall i | 0 <= i < |list| && list[i].id == id && (forall k :: 0 <= k < i ==> list[k].id != list[i].id)
        ensures r == list[i := Category(list[i].id, name, icon, color, false)]
      {
        assert IdIndex(list, id) == Some(i);
      }
    }
  }

  /** A submit never produces a default category: every category it writes is deletable. */
  lemma SubmitNeverDefault(list: seq<Category>, name: string, icon: string, color: string, editingId: string, now: int)
    ensures var r := Submitted(list, name, icon, color, editingId, now);
      forall k :: 0 <= k < |r| && !(k < |list| && r[k] == list[k]) ==> !r[k].isDefault
  {
  }

  /** Editing keeps ids unique: the replaced category takes the id it already had. */
  lemma SubmitEditKeepsIds(list: seq<Category>, name: string, icon: string, color: string, editingId: string, now: int)
    requires UniqueIds(list)
    requires editingId != []
    ensures UniqueIds(Submitted(list, name, icon, color, editingId, now))
  {
  }

  /**
   * With unique ids a delete never removes a default category; when it
   * removes anything it removes exactly the custom category with that id,
   * and a default one or an unconfirmed delete leaves the list unchanged.
   */
  lemma DeleteProtectsDefaults(list: seq<Category>, id: int, confirmed: bool)
    requires UniqueIds(list)
    ensures forall c :: c in list && c.isDefault ==> c in Deleted(list, id, confirmed)
    ensures forall c :: c in Deleted(list, id, confirmed) <==> c in list && (c.id != id || !confirmed || c.isDefault)
    ensures !confirmed ==> Deleted(list, id, confirmed) == list
  {
    match IdIndex(list, id)
      case None =>
      case Some(i) =>
        forall c | c in list && c.id == id ensures c == list[i] {
          var j :| 0 <= j < |list| && list[j] == c;
        }
  }

  /**
   * Without unique ids the protection fails: a custom category listed first
   * takes a later default with the same id down with it.
   */
  lemma DeleteSharedIdRemovesDefault()
    ensures var list := [Category(1, "Mine", "", "", false), Builtin(1, "Other", "", "")];
      Deleted(list, 1, true) == []
  {
    var list := [Category(1, "Mine", "", "", false), Builtin(1, "Other", "", "")];
    assert IdIndex(list, 1) == Some(0);
    assert WithoutId(list[1..], 1) == [];
  }

  /** Every card has a positive total, comes from a category of the list, and every category with a positive total has its card. */
  lemma {:induction false} CollectedSpec(cats: seq<Category>, ts: seq<Transaction>, kind: Kind)
    ensures forall s :: s in Collected(cats, ts, kind) ==> s.total > 0.0 && s.kind == kind
    ensures forall s :: s in Collected(cats, ts, kind) ==> exists c :: c in cats && s == StatOf(c, ts, kind)
    ensures forall c :: c in cats && StatOf(c, ts, kind).total > 0.0 ==> StatOf(c, ts, kind) in Collected(cats, ts, kind)
    ensures |Collected(cats, ts, kind)| <= |cats|
  {
    if cats != [] {
      var init := cats[..|cats| - 1];
      CollectedSpec(init, ts, kind);
      assert cats == init + [cats[|cats| - 1]];
      forall s | s in Collected(cats, ts, kind)
        ensures exists c :: c in cats && s == StatOf(c, ts, kind)
      {
        if s !in Collected(init, ts, kind) {
          assert s == StatOf(cats[|cats| - 1], ts, kind);
        } else {
          var c :| c in init && s == StatOf(c, ts, kind);
          assert c in cats;
        }
      }
    }
  }

  /** A positive total needs at least one transaction: every card counts one or more. */
  lemma PositiveTotalCounted(c: Category, ts: seq<Transaction>, kind: Kind)
    requires StatOf(c, ts, kind).total > 0.0
    ensures StatOf(c, ts, kind).count >= 1
  {
  }

  /** The statistics are sorted by total, largest first, and are exactly the expense and income cards. */
  lemma StatsRanked(cats: CategorySet, data: FinancialData)
    ensures var all := Collected(cats.expense, data.expenses, Expense) + Collected(cats.income, data.income, Income);
      var r := SortDesc(all, StatTotal);
      Descending(r, StatTotal) && multiset(r) == multiset(all)
    ensures var all := Collected(cats.expense, data.expenses, Expense) + Collected(cats.income, data.income, Income);
      forall s :: s in SortDesc(all, StatTotal) ==> s.total > 0.0
  {
    var all := Collected(cats.expense, data.expenses, Expense) + Collected(cats.income, data.income, Income);
    SortDescSpec(all, StatTotal);
    CollectedSpec(cats.expense, data.expenses, Expense);
    CollectedSpec(cats.income, data.income, Income);
    forall s | s in SortDesc(all, StatTotal) ensures s.total > 0.0 {
      assert s in multiset(SortDesc(all, StatTotal));
      assert s in all;
    }
  }
}
