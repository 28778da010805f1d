/**
 * The rules the two browser import managers share: reading a header row into
 * column roles, the column-select values and the mapping derived from them,
 * bank templates, date-format dispatch, amount parsing, keyword
 * classification and the preview that turns rows into transactions.
 */
module ImportRules {
  import opened Wrappers
  import opened Text
  import Amounts

  // ------------------------------------------------------------ columns

  datatype Role = DateRole | DescriptionRole | AmountRole | CategoryRole

  /**
   * One column index per role, or None for "not chosen". Used both for the
   * four column `<select>` values and for the parsed `columnMapping`.
   */
  datatype Columns = Columns(date: Option<nat>, description: Option<nat>, amount: Option<nat>, category: Option<nat>)
  {
    function Get(role: Role): Option<nat>
    {
      match role
      case DateRole => date
      case DescriptionRole => description
      case AmountRole => amount
      case CategoryRole => category
    }

    function With(role: Role, v: Option<nat>): (r: Columns)
      ensures r.Get(role) == v
      ensures forall other :: other != role ==> r.Get(other) == Get(other)
    {
      match role
      case DateRole => this.(date := v)
      case DescriptionRole => this.(description := v)
      case AmountRole => this.(amount := v)
      case CategoryRole => this.(category := v)
    }
  }

  const Unset: Columns := Columns(None, None, None, None)

  /** Some keyword of `keys` occurs in `s`. */
  predicate MentionsAny(s: string, keys: seq<string>)
  {
    exists k :: k in keys && Contains(s, k)
  }

  const DateKeys: seq<string> := ["date", "transaction date"]
  const AmountKeys: seq<string> := ["amount", "debit", "credit"]
  const CategoryKeys: seq<string> := ["category", "type"]
  /** The simplified manager also recognises Nigerian "narration" columns. */
  const SimpleDescriptionKeys: seq<string> := ["description", "memo", "details", "narration"]
  const FullDescriptionKeys: seq<string> := ["description", "memo", "details"]

  /** The role autoDetectColumns gives one header: the first of date, description, amount, category it mentions. */
  function HeaderRole(header: string, descriptionKeys: seq<string>): Option<Role>
  {
    var lower := ToLower(header);
    if MentionsAny(lower, DateKeys) then Some(DateRole)
    else if MentionsAny(lower, descriptionKeys) then Some(DescriptionRole)
    else if MentionsAny(lower, AmountKeys) then Some(AmountRole)
    else if MentionsAny(lower, CategoryKeys) then Some(CategoryRole)
    else None
  }

  /** The last header index whose role is `role`. */
  function LastWithRole(headers: seq<string>, descriptionKeys: seq<string>, role: Role): (r: Option<nat>)
    ensures r.Some? ==> r.value < |headers| && HeaderRole(headers[r.value], descriptionKeys) == Some(role)
    ensures r.Some? ==> forall j :: r.value < j < |headers| ==> HeaderRole(headers[j], descriptionKeys) != Some(role)
    ensures r.None? ==> forall j :: 0 <= j < |headers| ==> HeaderRole(headers[j], descriptionKeys) != Some(role)
  {
    if headers == [] then None
    else if HeaderRole(headers[|headers| - 1], descriptionKeys) == Some(role) then Some(|headers| - 1)
    else LastWithRole(headers[..|headers| - 1], descriptionKeys, role)
  }

  /** The select values after autoDetectColumns: a role keeps its old value when no header mentions it. */
  function Detected(headers: seq<string>, descriptionKeys: seq<string>, before: Columns): Columns
  {
    Columns(
      Pick(LastWithRole(headers, descriptionKeys, DateRole), before.date),
      Pick(LastWithRole(headers, descriptionKeys, DescriptionRole), before.description),
      Pick(LastWithRole(headers, descriptionKeys, AmountRole), before.amount),
      Pick(LastWithRole(headers, descriptionKeys, CategoryRole), before.category))
  }

  function Pick(found: Option<nat>, previous: Option<nat>): Option<nat>
  {
    if found.Some? then found else previous
  }

  /**
   * After detection every role either points at the last header that has it
   * (a later matching header overwrote every earlier one) or, when no header
   * has it, keeps its previous value; each header feeds at most one role.
   */
  lemma DetectedLastWins(headers: seq<string>, descriptionKeys: seq<string>, before: Columns, role: Role)
    ensures var v := Detected(headers, descriptionKeys, before).Get(role);
      (forall j :: 0 <= j < |headers| ==> HeaderRole(headers[j], descriptionKeys) != Some(role)) ==> v == before.Get(role)
    ensures var v := Detected(headers, descriptionKeys, before).Get(role);
      (exists j :: 0 <= j < |headers| && HeaderRole(headers[j], descriptionKeys) == Some(role)) ==>
        v.Some? && v.value < |headers| && HeaderRole(headers[v.value], descriptionKeys) == Some(role)
        && forall j :: v.value < j < |headers| ==> HeaderRole(headers[j], descriptionKeys) != Some(role)
  {
  }

  /** One more header either takes its role or leaves detection as it was. */
  lemma DetectedSnoc(headers: seq<string>, i: nat, descriptionKeys: seq<string>, before: Columns)
    requires i < |headers|
    ensures var d := Detected(headers[..i], descriptionKeys, before);
      Detected(headers[..i + 1], descriptionKeys, before)
        == match HeaderRole(headers[i], descriptionKeys)
           case None => d
           case Some(role) => d.With(role, Some(i))
  {
    assert headers[..i + 1][..i] == headers[..i];
  }

  /** `Number.parseInt(select.value) || null`: an empty select and index 0 both become null. */
  function Truthy(v: Option<nat>): Option<nat>
  {
    if v == Some(0) then None else v
  }

  /** updateColumnMapping. */
  function ToMapping(selects: Columns): Columns
  {
    Columns(Truthy(selects.date), Truthy(selects.description), Truthy(selects.amount), Truthy(selects.category))
  }

  /** The mapping never holds column 0; every other chosen column passes through. */
  lemma ToMappingSpec(selects: Columns, role: Role)
    ensures ToMapping(selects).Get(role) != Some(0)
    ensures ToMapping(selects).Get(role).None? <==> selects.Get(role).None? || selects.Get(role) == Some(0)
    ensures ToMapping(selects).Get(role).Some? ==> ToMapping(selects).Get(role) == selects.Get(role)
  {
  }

  // ------------------------------------------------------------ bank templates

  datatype Template = Template(date: nat, description: nat, amount: nat)

  const SimpleTemplates: map<string, Template> := map[
    "gtb" := Template(0, 1, 2), "firstbank" := Template(0, 1, 2), "zenith" := Template(0, 1, 2),
    "uba" := Template(0, 1, 2), "access" := Template(0, 1, 2), "fidelity" := Template(0, 1, 2)]

  const FullTemplates: map<string, Template> := map[
    "chase" := Template(0, 1, 2), "bofa" := Template(0, 1, 2), "wells" := Template(0, 2, 1)]

  /**
   * Setting a select to an index: the value sticks only when the select has
   * an option for it, that is when the loaded table has that many columns.
   */
  function SelectValue(index: nat, width: nat): Option<nat>
  {
    if index < width then Some(index) else None
  }

  /** The three selects applyBankTemplate writes; the category select is left alone. */
  function WithTemplate(selects: Columns, t: Template, width: nat): (r: Columns)
    ensures r.category == selects.category
  {
    selects.(date := SelectValue(t.date, width), description := SelectValue(t.description, width),
             amount := SelectValue(t.amount, width))
  }

  /** Every built-in template puts the date in column 0, so the mapping it yields never has a date. */
  lemma TemplatesLeaveDateUnset(selects: Columns, name: string, width: nat)
    ensures name in SimpleTemplates ==> ToMapping(WithTemplate(selects, SimpleTemplates[name], width)).date.None?
    ensures name in FullTemplates ==> ToMapping(WithTemplate(selects, FullTemplates[name], width)).date.None?
  {
  }

  // ------------------------------------------------------------ amounts

  /** `[₦$,\s]`: what the simplified manager deletes from an amount. */
  const SimpleAmountNoise: set<char> :=
    {'₦', '$', ',', ' ', '\t', '\n', '\r', '\U{B}', '\U{C}', '\U{A0}', '\U{FEFF}', '\U{2028}', '\U{2029}'}

  /** `[$,\s]`: what the full manager deletes; the naira sign stays and makes parseFloat fail. */
  const FullAmountNoise: set<char> :=
    {'$', ',', ' ', '\t', '\n', '\r', '\U{B}', '\U{C}', '\U{A0}', '\U{FEFF}', '\U{2028}', '\U{2029}'}

  /** A missing or empty string is falsy in JavaScript. */
  function Present(v: Option<string>): Option<string>
  {
    if v == Some([]) then None else v
  }

  /** parseAmount: missing or empty input and a NaN parse both throw (None). */
  function ParseAmount(amount: Option<string>, noise: set<char>, parseFloat: string -> Option<real>): (r: Option<real>)
    ensures Present(amount).None? ==> r.None?
  {
    match Present(amount)
    case None => None
    case Some(s) => parseFloat(Amounts.AmountText(s, noise))
  }

  /** What parseFloat reads in each manager: no noise left, and a leading minus exactly for parenthesised input. */
  lemma ParseAmountText(s: string)
    ensures var t := Amounts.AmountText(s, SimpleAmountNoise);
      (forall i :: 0 <= i < |t| ==> t[i] !in SimpleAmountNoise)
      && (HasChar(s, '(') && HasChar(s, ')') ==> |t| >= 1 && t[0] == '-' && !HasChar(t, '(') && !HasChar(t, ')'))
    ensures var t := Amounts.AmountText(s, FullAmountNoise);
      (forall i :: 0 <= i < |t| ==> t[i] !in FullAmountNoise)
      && (HasChar(s, '(') && HasChar(s, ')') ==> |t| >= 1 && t[0] == '-' && !HasChar(t, '(') && !HasChar(t, ')'))
  {
    Amounts.AmountTextSpec(s, SimpleAmountNoise);
    Amounts.AmountTextSpec(s, FullAmountNoise);
  }

  /** The full manager keeps a naira sign that the simplified manager deletes. */
  lemma NairaOnlyStrippedBySimple(s: string)
    requires HasChar(s, '₦')
    ensures !HasChar(Amounts.AmountText(s, SimpleAmountNoise), '₦')
    ensures HasChar(Amounts.AmountText(s, FullAmountNoise), '₦')
  {
    ParseAmountText(s);
    RemoveCharsSpec(s, FullAmountNoise);
    var cleaned := RemoveChars(s, FullAmountNoise);
    assert HasChar(cleaned, '₦');
    if HasChar(cleaned, '(') && HasChar(cleaned, ')') {
      RemoveCharsSpec(cleaned, {'(', ')'});
      HasCharConcat("-", RemoveChars(cleaned, {'(', ')'}), '₦');
    }
  }

  // ------------------------------------------------------------ dates

  /** What `new Date(...)` is asked to build: text parsed as a date string, or local calendar parts. */
  datatype DateRequest = FromText(text: string) | FromParts(year: int, monthIndex: int, day: int)

  predicate DigitsOfLength(s: string, lo: nat, hi: nat)
  {
    lo <= |s| <= hi && AllDigits(s)
  }

  /** `^\d{4}-\d{2}-\d{2}$`. */
  predicate IsoShape(s: string)
  {
    var p := Split(s, '-');
    |p| == 3 && DigitsOfLength(p[0], 4, 4) && DigitsOfLength(p[1], 2, 2) && DigitsOfLength(p[2], 2, 2)
  }

  /** `^\d{2}\/\d{2}\/\d{4}$` or `^\d{1,2}\/\d{1,2}\/\d{4}$` (the first is a case of the second). */
  predicate SlashShape(s: string)
  {
    var p := Split(s, '/');
    |p| == 3 && DigitsOfLength(p[0], 1, 2) && DigitsOfLength(p[1], 1, 2) && DigitsOfLength(p[2], 4, 4)
  }

  /** `^\d{2}-\d{2}-\d{4}$`. */
  predicate DashShape(s: string)
  {
    var p := Split(s, '-');
    |p| == 3 && DigitsOfLength(p[0], 2, 2) && DigitsOfLength(p[1], 2, 2) && DigitsOfLength(p[2], 4, 4)
  }

  /** parseDate's format dispatch: which Date constructor a non-empty date string reaches. */
  function DateRequestOf(s: string): DateRequest
  {
    if IsoShape(s) then FromText(s)
    else if SlashShape(s) then
      var p := Split(s, '/');
      FromParts(DigitsValue(p[2]), DigitsValue(p[0]) - 1, DigitsValue(p[1]))
    else if DashShape(s) then
      var p := Split(s, '-');
      FromParts(DigitsValue(p[2]), DigitsValue(p[0]) - 1, DigitsValue(p[1]))
    else FromText(s)
  }

  /**
   * parseDate: missing or empty text and an invalid Date both throw (None);
   * `build` stands for the Date constructor followed by `toISOString().split("T")[0]`.
   */
  function ParseDate(date: Option<string>, build: DateRequest -> Option<string>): (r: Option<string>)
    ensures Present(date).None? ==> r.None?
  {
    match Present(date)
    case None => None
    case Some(s) => build(DateRequestOf(s))
  }

  /** A month/day/year string is built from its parts: the year, the month less one, the day. */
  lemma SlashDateParts(m: string, d: string, y: string)
    requires DigitsOfLength(m, 1, 2) && DigitsOfLength(d, 1, 2) && DigitsOfLength(y, 4, 4)
    ensures DateRequestOf(m + "/" + d + "/" + y) == FromParts(DigitsValue(y), DigitsValue(m) - 1, DigitsValue(d))
  {
    var s := m + "/" + d + "/" + y;
    NoSeparatorInDigits(m, '/');
    NoSeparatorInDigits(d, '/');
    NoSeparatorInDigits(y, '/');
    JoinThree(m, d, y, '/');
    SplitJoin([m, d, y], '/');
    assert Split(s, '/') == [m, d, y];
    NoSeparatorInDigits(m, '-');
    NoSeparatorInDigits(d, '-');
    NoSeparatorInDigits(y, '-');
    NoSeparatorInDigits(m + d + y, '-');
    HasCharConcat(m, "/", '-');
    HasCharConcat(m + "/", d, '-');
    HasCharConcat(m + "/" + d, "/", '-');
    HasCharConcat(m + "/" + d + "/", y, '-');
    SplitWithoutSeparator(s, '-');
  }

  /** A month-day-year string with two-digit month and day is built from its parts. */
  lemma DashDateParts(m: string, d: string, y: string)
    requires DigitsOfLength(m, 2, 2) && DigitsOfLength(d, 2, 2) && DigitsOfLength(y, 4, 4)
    ensures DateRequestOf(m + "-" + d + "-" + y) == FromParts(DigitsValue(y), DigitsValue(m) - 1, DigitsValue(d))
  {
    var s := m + "-" + d + "-" + y;
    NoSeparatorInDigits(m, '-');
    NoSeparatorInDigits(d, '-');
    NoSeparatorInDigits(y, '-');
    JoinThree(m, d, y, '-');
    SplitJoin([m, d, y], '-');
    assert Split(s, '-') == [m, d, y];
    HasCharConcat(m, "-", '/');
    HasCharConcat(m + "-", d, '/');
    HasCharConcat(m + "-" + d, "-", '/');
    HasCharConcat(m + "-" + d + "-", y, '/');
    NoSeparatorInDigits(m, '/');
    NoSeparatorInDigits(d, '/');
    NoSeparatorInDigits(y, '/');
    SplitWithoutSeparator(s, '/');
  }

  /** An ISO year-month-day string goes to the Date parser unchanged. */
  lemma IsoDateText(y: string, m: string, d: string)
    requires DigitsOfLength(y, 4, 4) && DigitsOfLength(m, 2, 2) && DigitsOfLength(d, 2, 2)
    ensures DateRequestOf(y + "-" + m + "-" + d) == FromText(y + "-" + m + "-" + d)
  {
    NoSeparatorInDigits(y, '-');
    NoSeparatorInDigits(m, '-');
    NoSeparatorInDigits(d, '-');
    JoinThree(y, m, d, '-');
    SplitJoin([y, m, d], '-');
  }

  lemma NoSeparatorInDigits(s: string, c: char)
    requires AllDigits(s) && !IsDigit(c)
    ensures !HasChar(s, c)
  {
  }

  lemma JoinThree(a: string, b: string, c: string, d: char)
    ensures Join([a, b, c], [d]) == a + [d] + b + [d] + c
  {
    assert [a, b, c][1..] == [b, c];
    assert [b, c][1..] == [c];
    assert Join([b, c], [d]) == b + [d] + c;
    assert Join([a, b, c], [d]) == a + [d] + (b + [d] + c);
  }

  lemma {:induction false} SplitWithoutSeparator(s: string, d: char)
    requires !HasChar(s, d)
    ensures Split(s, d) == [s]
  {
    if s != [] {
      HasCharTail(s, d);
      SplitWithoutSeparator(s[1..], d);
      assert [s[0]] + s[1..] == s;
    }
  }

  // ------------------------------------------------------------ categories

  datatype Rule = Rule(category: string, keywords: seq<string>)

  /** categorizeTransaction in the simplified (student) manager. */
  const SimpleRules: seq<Rule> := [
    Rule("food", ["food", "restaurant", "eatery", "canteen"]),
    Rule("transportation", ["transport", "bus", "taxi", "keke"]),
    Rule("textbooks", ["book", "material", "stationery"]),
    Rule("allowance", ["allowance", "salary", "deposit"]),
    Rule("internet", ["data", "internet", "airtime"]),
    Rule("clothing", ["cloth", "fashion", "shoe"]),
    Rule("entertainment", ["entertainment", "movie", "game"])]

  /** categorizeTransaction in the full manager. */
  const FullRules: seq<Rule> := [
    Rule("food", ["grocery", "food", "restaurant"]),
    Rule("transportation", ["gas", "fuel", "transport"]),
    Rule("salary", ["salary", "payroll", "deposit"]),
    Rule("entertainment", ["entertainment", "movie", "netflix"]),
    Rule("shopping", ["shopping", "amazon", "store"]),
    Rule("bills", ["bill", "utility", "electric"])]

  /** Index of the first rule with a keyword in `lower`. */
  function FirstRule(lower: string, rules: seq<Rule>): (r: Option<nat>)
    ensures r.Some? ==> r.value < |rules| && MentionsAny(lower, rules[r.value].keywords)
    ensures r.Some? ==> forall j :: 0 <= j < r.value ==> !MentionsAny(lower, rules[j].keywords)
    ensures r.None? ==> forall j :: 0 <= j < |rules| ==> !MentionsAny(lower, rules[j].keywords)
  {
    if rules == [] then None
    else if MentionsAny(lower, rules[0].keywords) then Some(0)
    else match FirstRule(lower, rules[1..])
      case None => None
      case Some(k) => Some(k + 1)
  }

  /** categorizeTransaction: the first rule mentioned by the lower-cased description, else "other". */
  function Categorize(description: string, rules: seq<Rule>): string
  {
    match FirstRule(ToLower(description), rules)
    case None => "other"
    case Some(k) => rules[k].category
  }

  /**
   * The category is the one of the first rule whose keyword the lower-cased
   * description contains, "other" when none does, and never empty for the
   * built-in tables.
   */
  lemma CategorizeSpec(description: string, rules: seq<Rule>)
    ensures var lower := ToLower(description);
      (forall j :: 0 <= j < |rules| ==> !MentionsAny(lower, rules[j].keywords)) ==> Categorize(description, rules) == "other"
    ensures var lower := ToLower(description);
      forall i :: (0 <= i < |rules| && MentionsAny(lower, rules[i].keywords)
        && (forall j :: 0 <= j < i ==> !MentionsAny(lower, rules[j].keywords))) ==>
        Categorize(description, rules) == rules[i].category
    ensures (forall j :: 0 <= j < |rules| ==> rules[j].category != []) ==> Categorize(description, rules) != []
  {
    var lower := ToLower(description);
    var r := FirstRule(lower, rules);
    forall i | 0 <= i < |rules| && MentionsAny(lower, rules[i].keywords)
        && (forall j :: 0 <= j < i ==> !MentionsAny(lower, rules[j].keywords))
      ensures Categorize(description, rules) == rules[i].category
    {
      assert r.Some?;
    }
  }

  /** A description mentioning "grocery" is food in the full manager, whatever else it says. */
  lemma GroceryIsFood(description: string)
    requires Contains(ToLower(description), "grocery")
    ensures Categorize(description, FullRules) == "food"
  {
    assert MentionsAny(ToLower(description), FullRules[0].keywords);
  }

  /** A description mentioning "food" is food in both managers, since food is the first rule. */
  lemma FoodComesFirst(description: string)
    requires Contains(ToLower(description), "food")
    ensures Categorize(description, SimpleRules) == "food"
    ensures Categorize(description, FullRules) == "food"
  {
    assert MentionsAny(ToLower(description), SimpleRules[0].keywords);
    assert MentionsAny(ToLower(description), FullRules[0].keywords);
  }

  // ------------------------------------------------------------ preview

  datatype Table = Table(headers: seq<string>, rows: seq<seq<string>>)

  /** A transaction built by updatePreview; `kind` is "income" or "expense". */
  datatype Parsed = Parsed(id: int, date: string, description: string, amount: real, category: string,
                           kind: string, source: Option<string>)

  /**
   * What a preview needs from outside the manager: `Date.now()`, the Date
   * constructor, parseFloat, and the manager's own cleaning and rule tables.
   */
  datatype Environment = Environment(now: int, build: DateRequest -> Option<string>,
                                     parseFloat: string -> Option<real>, noise: set<char>,
                                     rules: seq<Rule>, source: Option<string>)

  /** `row[k]`, undefined past the end of a short row. */
  function CellAt(row: seq<string>, k: nat): Option<string>
  {
    if k < |row| then Some(row[k]) else None
  }

  /** updatePreview needs a date, a description and an amount column. */
  predicate Ready(m: Columns)
  {
    m.date.Some? && m.description.Some? && m.amount.Some?
  }

  /**
   * The transaction updatePreview builds from a row that parsed: "income"
   * exactly when the amount is non-negative, otherwise "expense"; the
   * description trimmed; an empty or missing category becomes "other".
   */
  function Assemble(id: int, date: string, description: string, amount: real, category: Option<string>,
                    source: Option<string>): (p: Parsed)
    ensures p.kind == "income" <==> amount >= 0.0
    ensures p.kind == "income" || p.kind == "expense"
    ensures p.category != [] && NoEdgeSpace(p.description)
    ensures p.id == id && p.date == date && p.amount == amount && p.source == source
  {
    Parsed(id, date, Trim(description), amount, Present(category).GetOr("other"),
           if amount >= 0.0 then "income" else "expense", source)
  }

  /** One row of updatePreview's map step; None where parseDate or parseAmount throws. */
  function PreviewRow(row: seq<string>, index: nat, m: Columns, env: Environment): Option<Parsed>
    requires Ready(m)
  {
    var date := ParseDate(CellAt(row, m.date.value), env.build);
    var description := Present(CellAt(row, m.description.value)).GetOr("Unknown Transaction");
    var amount := ParseAmount(CellAt(row, m.amount.value), env.noise, env.parseFloat);
    if date.None? || amount.None? then None
    else
      var category := if m.category.Some? then CellAt(row, m.category.value)
                      else Some(Categorize(description, env.rules));
      Some(Assemble(env.now + index, date.value, description, amount.value, category, env.source))
  }

  /** updatePreview's map step over all rows; the row's index feeds the id. */
  function Attempts(rows: seq<seq<string>>, m: Columns, env: Environment): (r: seq<Option<Parsed>>)
    requires Ready(m)
    ensures |r| == |rows|
    ensures forall j :: 0 <= j < |rows| ==> r[j] == PreviewRow(rows[j], j, m, env)
  {
    seq(|rows|, j requires 0 <= j < |rows| => PreviewRow(rows[j], j, m, env))
  }

  /** `.filter((transaction) => transaction !== null)`. */
  function Somes<T>(xs: seq<Option<T>>): (r: seq<T>)
    ensures |r| <= |xs|
  {
    if xs == [] then [] else (if xs[0].Some? then [xs[0].value] else []) + Somes(xs[1..])
  }

  /** The filter keeps exactly the present values, in order. */
  lemma {:induction false} SomesSpec<T>(xs: seq<Option<T>>)
    ensures forall p :: p in Somes(xs) <==> Some(p) in xs
    ensures (forall j :: 0 <= j < |xs| ==> xs[j].Some?) ==> |Somes(xs)| == |xs|
  {
    if xs != [] {
      SomesSpec(xs[1..]);
      assert xs == [xs[0]] + xs[1..];
    }
  }

  /** updatePreview: the rows that parse, as transactions, in row order. */
  function PreviewRows(rows: seq<seq<string>>, m: Columns, env: Environment): (r: seq<Parsed>)
    requires Ready(m)
    ensures |r| <= |rows|
  {
    Somes(Attempts(rows, m, env))
  }

  /** A value the filter keeps comes from some position of its input. */
  lemma SomesFrom<T>(xs: seq<Option<T>>, p: T)
    requires p in Somes(xs)
    ensures exists j :: 0 <= j < |xs| && xs[j] == Some(p)
  {
    SomesSpec(xs);
  }

  /** Every transaction the preview keeps is the parse of one of the rows. */
  lemma PreviewRowsFrom(rows: seq<seq<string>>, m: Columns, env: Environment)
    requires Ready(m)
    ensures forall p :: p in PreviewRows(rows, m, env) ==>
      exists j :: 0 <= j < |rows| && PreviewRow(rows[j], j, m, env) == Some(p)
  {
    var attempts := Attempts(rows, m, env);
    forall p | p in PreviewRows(rows, m, env)
      ensures exists j :: 0 <= j < |rows| && PreviewRow(rows[j], j, m, env) == Some(p)
    {
      SomesFrom(attempts, p);
      var j :| 0 <= j < |attempts| && attempts[j] == Some(p);
    }
  }

  /** When every row parses, the preview drops none of them. */
  lemma PreviewRowsKeepAll(rows: seq<seq<string>>, m: Columns, env: Environment)
    requires Ready(m)
    requires forall j :: 0 <= j < |rows| ==> PreviewRow(rows[j], j, m, env).Some?
    ensures |PreviewRows(rows, m, env)| == |rows|
  {
    var attempts := Attempts(rows, m, env);
    assert forall j :: 0 <= j < |attempts| ==> attempts[j].Some?;
    SomesSpec(attempts);
  }

  /**
   * Every previewed transaction is typed "income" exactly when its amount is
   * non-negative (otherwise "expense"), has a non-empty category, a trimmed
   * description and the environment's source tag.
   */
  lemma PreviewRowShape(row: seq<string>, index: nat, m: Columns, env: Environment)
    requires Ready(m)
    ensures PreviewRow(row, index, m, env).Some? ==>
      var p := PreviewRow(row, index, m, env).value;
      (p.kind == "income" <==> p.amount >= 0.0) && (p.kind == "income" || p.kind == "expense")
      && p.category != [] && NoEdgeSpace(p.description) && p.source == env.source && p.id == env.now + index
  {
  }

  /** The same facts for every transaction of a preview. */
  lemma PreviewRowsShape(rows: seq<seq<string>>, m: Columns, env: Environment)
    requires Ready(m)
    ensures forall p :: p in PreviewRows(rows, m, env) ==>
      (p.kind == "income" <==> p.amount >= 0.0) && p.category != [] && NoEdgeSpace(p.description) && p.source == env.source
  {
    PreviewRowsFrom(rows, m, env);
    forall p | p in PreviewRows(rows, m, env)
      ensures (p.kind == "income" <==> p.amount >= 0.0) && p.category != [] && NoEdgeSpace(p.description) && p.source == env.source
    {
      var j :| 0 <= j < |rows| && PreviewRow(rows[j], j, m, env) == Some(p);
      PreviewRowShape(rows[j], j, m, env);
    }
  }
}
