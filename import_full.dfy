/**
 * The full import manager of the JavaScript build: it reads statements
 * through CSVParser, offers the chase/bofa/wells templates, tags previewed
 * transactions with source "import", and after the server accepts a batch
 * files each transaction into the local income or expense list.
 */
module ImportFull {
  import opened Wrappers
  import opened ImportRules
  import opened Finance
  import CsvParser

  /** The environment the full manager previews with: `[$,\s]` cleaning, its own rule table, source "import". */
  function FullEnvironment(now: int, build: DateRequest -> Option<string>, parseFloat: string -> Option<real>): Environment
  {
    Environment(now, build, parseFloat, FullAmountNoise, FullRules, Some("import"))
  }

  // ------------------------------------------------------------ filing imported transactions

  /** The stored copy of a previewed transaction: the same record with `Math.abs(amount)`. */
  function Stored(p: Parsed): (t: Transaction)
    ensures t.amount >= 0.0 && (t.amount == p.amount || t.amount == -p.amount)
    ensures t.id == p.id && t.date == p.date && t.description == p.description && t.category == p.category
  {
    Transaction(p.id, Abs(p.amount), p.description, p.category, p.date)
  }

  /** The stored copies of the transactions typed "income", in order. */
  function IncomeOf(ps: seq<Parsed>): seq<Transaction>
  {
    if ps == [] then []
    else IncomeOf(ps[..|ps| - 1]) + (if ps[|ps| - 1].kind == "income" then [Stored(ps[|ps| - 1])] else [])
  }

  /** The stored copies of every other transaction, in order. */
  function ExpensesOf(ps: seq<Parsed>): seq<Transaction>
  {
    if ps == [] then []
    else ExpensesOf(ps[..|ps| - 1]) + (if ps[|ps| - 1].kind != "income" then [Stored(ps[|ps| - 1])] else [])
  }

  /** `data` after the forEach of importTransactions has pushed every transaction into its list. */
  function Filed(data: FinancialData, ps: seq<Parsed>): FinancialData
  {
    data.(income := data.income + IncomeOf(ps), expenses := data.expenses + ExpensesOf(ps))
  }

  /** The sum of `Math.abs(amount)` over a batch. */
  function AbsSum(ps: seq<Parsed>): real
  {
    if ps == [] then 0.0 else AbsSum(ps[..|ps| - 1]) + Abs(ps[|ps| - 1].amount)
  }

  /** The number of transactions typed "income". */
  function IncomeCount(ps: seq<Parsed>): nat
  {
    if ps == [] then 0 else IncomeCount(ps[..|ps| - 1]) + (if ps[|ps| - 1].kind == "income" then 1 else 0)
  }

  /**
   * Every transaction lands in exactly one list: the income list gains one
   * entry per "income" transaction, the expense list one per other
   * transaction, the money added is the sum of the absolute amounts, and
   * every added amount is non-negative.
   */
  lemma {:induction false} FiledSpec(ps: seq<Parsed>)
    ensures |IncomeOf(ps)| == IncomeCount(ps)
    ensures |IncomeOf(ps)| + |ExpensesOf(ps)| == |ps|
    ensures Total(IncomeOf(ps)) + Total(ExpensesOf(ps)) == AbsSum(ps)
    ensures forall t :: t in IncomeOf(ps) + ExpensesOf(ps) ==> t.amount >= 0.0
  {
    if ps != [] {
      var init := ps[..|ps| - 1];
      var p := ps[|ps| - 1];
      FiledSpec(init);
      assert [Stored(p)][1..] == [];
      assert Total([Stored(p)]) == Abs(p.amount);
      if p.kind == "income" {
        assert IncomeOf(ps) == IncomeOf(init) + [Stored(p)];
        assert ExpensesOf(ps) == ExpensesOf(init);
        TotalConcat(IncomeOf(init), [Stored(p)]);
      } else {
        assert ExpensesOf(ps) == ExpensesOf(init) + [Stored(p)];
        assert IncomeOf(ps) == IncomeOf(init);
        TotalConcat(ExpensesOf(init), [Stored(p)]);
      }
    }
  }

  /** Filing a batch adds its absolute amounts to the combined totals and leaves the budgets alone. */
  lemma FiledTotals(data: FinancialData, ps: seq<Parsed>)
    ensures Total(Filed(data, ps).income) + Total(Filed(data, ps).expenses)
         == Total(data.income) + Total(data.expenses) + AbsSum(ps)
    ensures |Filed(data, ps).income| + |Filed(data, ps).expenses| == |data.income| + |data.expenses| + |ps|
    ensures Filed(data, ps).budgets == data.budgets
  {
    FiledSpec(ps);
    TotalConcat(data.income, IncomeOf(ps));
    TotalConcat(data.expenses, ExpensesOf(ps));
  }

  /** csvParser.parseFile on the file's text; parseCSV never fails, since line splitting always yields a line. */
  method ReadCsv(text: string) returns (data: CsvParser.CsvData)
    ensures data == CsvParser.CsvOf(text)
  {
    var parser := new CsvParser.CSVParser();
    var parsed := parser.ParseCsv(text);
    data := parsed.value;
  }

  /** The full import manager's state; `selects` are the four column `<select>` values. */
  class ImportManager {
    var currentData: Option<Table>
    var parsedTransactions: seq<Parsed>
    var columnMapping: Columns
    var selects: Columns

    constructor()
      ensures currentData == None && parsedTransactions == [] && columnMapping == Unset && selects == Unset
    {
      currentData := None;
      parsedTransactions := [];
      columnMapping := Unset;
      selects := Unset;
    }

    /** updateColumnMapping. */
    method UpdateColumnMapping()
      modifies this
      ensures columnMapping == ToMapping(selects)
      ensures currentData == old(currentData) && parsedTransactions == old(parsedTransactions) && selects == old(selects)
    {
      columnMapping := ToMapping(selects);
    }

    /** autoDetectColumns: as in the simplified manager, without the "narration" keyword. */
    method AutoDetectColumns(headers: seq<string>)
      modifies this
      ensures selects == Detected(headers, FullDescriptionKeys, old(selects))
      ensures columnMapping == ToMapping(selects)
      ensures currentData == old(currentData) && parsedTransactions == old(parsedTransactions)
    {
      ghost var before := selects;
      for i := 0 to |headers|
        invariant selects == Detected(headers[..i], FullDescriptionKeys, before)
        invariant currentData == old(currentData) && parsedTransactions == old(parsedTransactions)
      {
        DetectedSnoc(headers, i, FullDescriptionKeys, before);
        var role := HeaderRole(headers[i], FullDescriptionKeys);
        if role.Some? {
          selects := selects.With(role.value, Some(i));
        }
      }
      assert headers[..|headers|] == headers;
      UpdateColumnMapping();
    }

    /**
     * processCSV: the file goes through CSVParser, its header and rows
     * become the current data, the selects are rebuilt with no column
     * chosen and then auto-detected; the deferred showPreview then runs
     * updatePreview, which rebuilds the preview when detection found the
     * date, description and amount columns and leaves it alone otherwise.
     */
    method ProcessCsv(text: string, now: int, build: DateRequest -> Option<string>, parseFloat: string -> Option<real>)
      modifies this
      ensures currentData == Some(Table(CsvParser.CsvOf(text).headers, CsvParser.CsvOf(text).rows))
      ensures selects == Detected(CsvParser.CsvOf(text).headers, FullDescriptionKeys, Unset)
      ensures columnMapping == ToMapping(selects)
      ensures !Ready(columnMapping) ==> parsedTransactions == old(parsedTransactions)
      ensures Ready(columnMapping) ==>
        parsedTransactions == PreviewRows(CsvParser.CsvOf(text).rows, columnMapping, FullEnvironment(now, build, parseFloat))
    {
      var data := ReadCsv(text);
      Load(data, now, build, parseFloat);
    }

    /** The steps of processCSV after parsing, stated for the parsed data. */
    method Load(data: CsvParser.CsvData, now: int, build: DateRequest -> Option<string>, parseFloat: string -> Option<real>)
      modifies this
      ensures currentData == Some(Table(data.headers, data.rows))
      ensures selects == Detected(data.headers, FullDescriptionKeys, Unset)
      ensures columnMapping == ToMapping(selects)
      ensures !Ready(columnMapping) ==> parsedTransactions == old(parsedTransactions)
      ensures Ready(columnMapping) ==>
        parsedTransactions == PreviewRows(data.rows, columnMapping, FullEnvironment(now, build, parseFloat))
    {
      currentData := Some(Table(data.headers, data.rows));
      selects := Unset;
      AutoDetectColumns(data.headers);
      assert currentData == Some(Table(data.headers, data.rows));
      assert selects == Detected(data.headers, FullDescriptionKeys, Unset);
      UpdatePreview(now, build, parseFloat);
      assert currentData.value.rows == data.rows;
    }

    /**
     * applyBankTemplate: an unknown template or no loaded data changes
     * nothing; otherwise the date, description and amount selects take the
     * template's columns and the mapping and preview are refreshed.
     */
    method ApplyBankTemplate(name: string, now: int, build: DateRequest -> Option<string>, parseFloat: string -> Option<real>)
      modifies this
      ensures name !in FullTemplates || old(currentData).None? ==>
        currentData == old(currentData) && selects == old(selects)
        && columnMapping == old(columnMapping) && parsedTransactions == old(parsedTransactions)
      ensures name in FullTemplates && old(currentData).Some? ==>
        selects == WithTemplate(old(selects), FullTemplates[name], |old(currentData).value.headers|)
        && columnMapping == ToMapping(selects)
        && currentData == old(currentData) && parsedTransactions == old(parsedTransactions)
    {
      if name !in FullTemplates || currentData.None? {
        return;
      }
      selects := WithTemplate(selects, FullTemplates[name], |currentData.value.headers|);
      UpdateColumnMapping();
      TemplatesLeaveDateUnset(old(selects), name, |currentData.value.headers|);
      UpdatePreview(now, build, parseFloat);
    }

    /**
     * updatePreview: without loaded data or with no date, description or
     * amount column nothing changes; otherwise the parsed transactions are
     * rebuilt from every row.
     */
    method UpdatePreview(now: int, build: DateRequest -> Option<string>, parseFloat: string -> Option<real>)
      modifies this
      ensures currentData == old(currentData) && columnMapping == old(columnMapping) && selects == old(selects)
      ensures currentData.None? || !Ready(columnMapping) ==> parsedTransactions == old(parsedTransactions)
      ensures currentData.Some? && Ready(columnMapping) ==>
        parsedTransactions == PreviewRows(currentData.value.rows, columnMapping, FullEnvironment(now, build, parseFloat))
    {
      if currentData.None? || !Ready(columnMapping) {
        return;
      }
      parsedTransactions := PreviewRows(currentData.value.rows, columnMapping, FullEnvironment(now, build, parseFloat));
    }

    /**
     * importTransactions: an empty preview is an error and nothing is sent;
     * a batch the server refuses leaves the stored data alone; an accepted
     * batch is filed into the stored data transaction by transaction.
     */
    method ImportTransactions(stored: FinancialData, accepted: bool) returns (r: Result<FinancialData, string>)
      ensures parsedTransactions == [] ==> r == Err("No transactions to import")
      ensures parsedTransactions != [] && !accepted ==> r.Err?
      ensures parsedTransactions != [] && accepted ==> r == Ok(Filed(stored, parsedTransactions))
    {
      if |parsedTransactions| == 0 {
        return Err("No transactions to import");
      }
      if !accepted {
        return Err("Import failed");
      }
      var data := stored;
      for i := 0 to |parsedTransactions|
        invariant data == Filed(stored, parsedTransactions[..i])
      {
        var t := parsedTransactions[i];
        assert parsedTransactions[..i + 1][..i] == parsedTransactions[..i];
        if t.kind == "income" {
          data := data.(income := data.income + [Stored(t)]);
        } else {
          data := data.(expenses := data.expenses + [Stored(t)]);
        }
      }
      assert parsedTransactions[..|parsedTransactions|] == parsedTransactions;
      r := Ok(data);
    }

    /** resetImport. */
    method ResetImport()
      modifies this
      ensures currentData == None && parsedTransactions == [] && columnMapping == Unset && selects == old(selects)
    {
      currentData := None;
      parsedTransactions := [];
      columnMapping := Unset;
    }
  }
}
