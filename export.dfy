/**
 * CSV export of the browser store (class DataExporter): field escaping,
 * joining rows into CSV text, the per-kind tables and the combined report.
 */
module Export {
  import opened Text
  import opened Finance
  import CsvParser

  const Quote: char := '"'

  /** A field of an exported row: a string, a number as JavaScript prints it, or a missing value. */
  datatype Cell = Str(s: string) | Number(shown: string) | Missing

  /** `field.replace(/"/g, '""')`. */
  function DoubleQuotes(s: string): string
  {
    if s == [] then [] else (if s[0] == Quote then [Quote, Quote] else [s[0]]) + DoubleQuotes(s[1..])
  }

  predicate NeedsQuoting(s: string)
  {
    HasChar(s, ',') || HasChar(s, Quote) || HasChar(s, '\n')
  }

  /** One field of arrayToCSV; `join` prints a missing value as nothing. */
  function EscapeCell(c: Cell): string
  {
    match c
    case Str(s) => if NeedsQuoting(s) then [Quote] + DoubleQuotes(s) + [Quote] else s
    case Number(shown) => shown
    case Missing => []
  }

  function EscapeAll(row: seq<Cell>): (r: seq<string>)
    ensures |r| == |row|
    ensures forall k :: 0 <= k < |r| ==> r[k] == EscapeCell(row[k])
  {
    if row == [] then [] else [EscapeCell(row[0])] + EscapeAll(row[1..])
  }

  function RowLine(row: seq<Cell>): string
  {
    Join(EscapeAll(row), ",")
  }

  function RowLines(rows: seq<seq<Cell>>): (r: seq<string>)
    ensures |r| == |rows|
    ensures forall k :: 0 <= k < |r| ==> r[k] == RowLine(rows[k])
  {
    if rows == [] then [] else [RowLine(rows[0])] + RowLines(rows[1..])
  }

  /** arrayToCSV: fields joined by commas, rows by newlines. */
  function ArrayToCsv(rows: seq<seq<Cell>>): string
  {
    Join(RowLines(rows), "\n")
  }

  // ------------------------------------------------------------ round trip

  function Strs(fields: seq<string>): (r: seq<Cell>)
    ensures |r| == |fields|
    ensures forall k :: 0 <= k < |r| ==> r[k] == Str(fields[k])
  {
    if fields == [] then [] else [Str(fields[0])] + Strs(fields[1..])
  }

  /**
   * The fields the CSV reader gives back unchanged: no line break, no
   * surrounding whitespace, and not both starting and ending with a quote.
   */
  predicate Reparsable(f: string)
  {
    !HasChar(f, '\n') && NoEdgeSpace(f) && !(|f| >= 1 && f[0] == Quote && f[|f| - 1] == Quote)
  }

  lemma {:induction false} ScanPlain(f: string, s: string, cur: string)
    requires !HasChar(f, Quote) && !HasChar(f, ',')
    ensures CsvParser.Scan(f + s, ',', cur, false) == CsvParser.Scan(s, ',', cur + f, false)
    decreases |f|
  {
    if f == [] {
      assert f + s == s && cur + f == cur;
    } else {
      HasCharTail(f, Quote);
      HasCharTail(f, ',');
      assert (f + s)[0] == f[0] && (f + s)[1..] == f[1..] + s;
      ScanPlain(f[1..], s, cur + [f[0]]);
      assert cur + [f[0]] + f[1..] == cur + f;
    }
  }

  /** Inside quotes the doubled body and the closing quote give back the field and leave the quotes. */
  lemma {:induction false} ScanQuotedBody(f: string, s: string, cur: string)
    requires s == [] || s[0] != Quote
    ensures CsvParser.Scan(DoubleQuotes(f) + [Quote] + s, ',', cur, true) == CsvParser.Scan(s, ',', cur + f, false)
    decreases |f|
  {
    if f == [] {
      assert DoubleQuotes(f) + [Quote] + s == [Quote] + s;
      assert ([Quote] + s)[1..] == s;
      assert cur + f == cur;
    } else {
      var t := DoubleQuotes(f[1..]) + [Quote] + s;
      ScanQuotedBody(f[1..], s, cur + [f[0]]);
      assert cur + [f[0]] + f[1..] == cur + f;
      if f[0] == Quote {
        assert DoubleQuotes(f) + [Quote] + s == [Quote, Quote] + t;
        assert ([Quote, Quote] + t)[2..] == t;
      } else {
        assert DoubleQuotes(f) + [Quote] + s == [f[0]] + t;
        assert ([f[0]] + t)[1..] == t;
      }
    }
  }

  /** Reading one escaped field ends with the field as the current text, outside quotes. */
  lemma ScanEscaped(f: string, s: string)
    requires !HasChar(f, '\n')
    requires s == [] || s[0] == ','
    ensures CsvParser.Scan(EscapeCell(Str(f)) + s, ',', [], false) == CsvParser.Scan(s, ',', f, false)
  {
    if NeedsQuoting(f) {
      var e := [Quote] + DoubleQuotes(f) + [Quote];
      assert e + s == [Quote] + (DoubleQuotes(f) + [Quote] + s);
      assert (e + s)[1..] == DoubleQuotes(f) + [Quote] + s;
      ScanQuotedBody(f, s, []);
      assert [] + f == f;
    } else {
      ScanPlain(f, s, []);
      assert [] + f == f;
    }
  }

  lemma {:induction false} ScanRow(fields: seq<string>)
    requires |fields| >= 1
    requires forall k :: 0 <= k < |fields| ==> !HasChar(fields[k], '\n')
    ensures CsvParser.Scan(RowLine(Strs(fields)), ',', [], false) == fields
    decreases |fields|
  {
    var esc := EscapeAll(Strs(fields));
    if |fields| == 1 {
      assert RowLine(Strs(fields)) == esc[0] == EscapeCell(Str(fields[0]));
      ScanEscaped(fields[0], []);
      assert EscapeCell(Str(fields[0])) + [] == EscapeCell(Str(fields[0]));
    } else {
      var rest := RowLine(Strs(fields[1..]));
      assert Strs(fields)[1..] == Strs(fields[1..]);
      assert EscapeAll(Strs(fields))[1..] == EscapeAll(Strs(fields[1..]));
      assert RowLine(Strs(fields)) == esc[0] + "," + rest;
      assert esc[0] + "," + rest == EscapeCell(Str(fields[0])) + ("," + rest);
      ScanEscaped(fields[0], "," + rest);
      assert ("," + rest)[1..] == rest;
      ScanRow(fields[1..]);
      assert [fields[0]] + fields[1..] == fields;
    }
  }

  /**
   * A row of string fields written by arrayToCSV reads back, through the CSV
   * reader's line parser with the comma delimiter, as the same fields: commas
   * and quotes inside a field survive the escaping.
   */
  lemma RowRoundTrip(fields: seq<string>)
    requires |fields| >= 1
    requires forall k :: 0 <= k < |fields| ==> Reparsable(fields[k])
    ensures CsvParser.LineFields(RowLine(Strs(fields)), ',') == fields
  {
    ScanRow(fields);
    TrimAllKeeps(fields);
    UnquoteAllKeeps(fields);
  }

  lemma TrimAllKeeps(fields: seq<string>)
    requires forall k :: 0 <= k < |fields| ==> NoEdgeSpace(fields[k])
    ensures CsvParser.TrimAll(fields) == fields
  {
    var trimmed := CsvParser.TrimAll(fields);
    forall k | 0 <= k < |fields| ensures trimmed[k] == fields[k] {
      TrimOfTrimmed(fields[k]);
    }
  }

  lemma UnquoteAllKeeps(fields: seq<string>)
    requires forall k :: 0 <= k < |fields| ==> !(|fields[k]| >= 1 && fields[k][0] == Quote && fields[k][|fields[k]| - 1] == Quote)
    ensures CsvParser.UnquoteAll(fields) == fields
  {
  }

  // ------------------------------------------------------------ line structure

  predicate CellNoBreak(c: Cell)
  {
    match c
    case Str(s) => CsvParser.NoBreak(s)
    case Number(shown) => CsvParser.NoBreak(shown)
    case Missing => true
  }

  lemma {:induction false} DoubleQuotesChars(s: string, c: char)
    ensures HasChar(DoubleQuotes(s), c) ==> c == Quote || HasChar(s, c)
  {
    if s != [] {
      DoubleQuotesChars(s[1..], c);
      var head := if s[0] == Quote then [Quote, Quote] else [s[0]];
      HasCharConcat(head, DoubleQuotes(s[1..]), c);
      HasCharTail(s, c);
      if HasChar(head, c) {
        var i :| 0 <= i < |head| && head[i] == c;
      }
    }
  }

  lemma EscapeNoBreak(c: Cell)
    requires CellNoBreak(c)
    ensures CsvParser.NoBreak(EscapeCell(c))
  {
    if c.Str? && NeedsQuoting(c.s) {
      var d := DoubleQuotes(c.s);
      DoubleQuotesChars(c.s, '\r');
      DoubleQuotesChars(c.s, '\n');
      HasCharConcat([Quote] + d, [Quote], '\r');
      HasCharConcat([Quote], d, '\r');
      HasCharConcat([Quote] + d, [Quote], '\n');
      HasCharConcat([Quote], d, '\n');
    }
  }

  lemma {:induction false} JoinLacks(parts: seq<string>, sep: string, c: char)
    requires !HasChar(sep, c)
    requires forall k :: 0 <= k < |parts| ==> !HasChar(parts[k], c)
    ensures !HasChar(Join(parts, sep), c)
    decreases |parts|
  {
    if |parts| > 1 {
      JoinLacks(parts[1..], sep, c);
      var rest := Join(parts[1..], sep);
      assert Join(parts, sep) == parts[0] + (sep + rest);
      HasCharConcat(parts[0], sep + rest, c);
      HasCharConcat(sep, rest, c);
    }
  }

  lemma JoinNoBreak(parts: seq<string>, sep: string)
    requires CsvParser.NoBreak(sep)
    requires forall k :: 0 <= k < |parts| ==> CsvParser.NoBreak(parts[k])
    ensures CsvParser.NoBreak(Join(parts, sep))
  {
    JoinLacks(parts, sep, '\r');
    JoinLacks(parts, sep, '\n');
  }

  predicate RowsNoBreak(rows: seq<seq<Cell>>)
  {
    forall k, j :: 0 <= k < |rows| && 0 <= j < |rows[k]| ==> CellNoBreak(rows[k][j])
  }

  /** Without line breaks inside fields, the CSV text has exactly one line per row. */
  lemma CsvLines(rows: seq<seq<Cell>>)
    requires |rows| >= 1 && RowsNoBreak(rows)
    ensures CsvParser.SplitLines(ArrayToCsv(rows)) == RowLines(rows)
  {
    var lines := RowLines(rows);
    forall k | 0 <= k < |lines| ensures CsvParser.NoBreak(lines[k]) {
      var esc := EscapeAll(rows[k]);
      forall j | 0 <= j < |esc| ensures CsvParser.NoBreak(esc[j]) {
        EscapeNoBreak(rows[k][j]);
      }
      JoinNoBreak(esc, ",");
    }
    CsvParser.SplitLinesOfJoin(lines);
  }

  // ------------------------------------------------------------ tables

  function TransactionRow(t: Transaction, show: real -> string): seq<Cell>
  {
    [Str(t.date), Str(t.description), Str(t.category), Number(show(t.amount))]
  }

  function BudgetRow(b: Budget, show: real -> string): seq<Cell>
  {
    [Str(b.category), Number(show(b.amount)), Str(b.period), Str(b.createdAt)]
  }

  const TransactionHeader: seq<Cell> := [Str("Date"), Str("Description"), Str("Category"), Str("Amount (NGN)")]
  const BudgetHeader: seq<Cell> := [Str("Category"), Str("Amount (NGN)"), Str("Period"), Str("Created Date")]

  function TransactionRows(items: seq<Transaction>, show: real -> string): (r: seq<seq<Cell>>)
    ensures |r| == |items|
    ensures forall k :: 0 <= k < |r| ==> r[k] == TransactionRow(items[k], show)
  {
    if items == [] then [] else [TransactionRow(items[0], show)] + TransactionRows(items[1..], show)
  }

  function BudgetRows(items: seq<Budget>, show: real -> string): (r: seq<seq<Cell>>)
    ensures |r| == |items|
    ensures forall k :: 0 <= k < |r| ==> r[k] == BudgetRow(items[k], show)
  {
    if items == [] then [] else [BudgetRow(items[0], show)] + BudgetRows(items[1..], show)
  }

  /** generateIncomeCSV / generateExpensesCSV: a header row, then one row per transaction. */
  function TransactionsCsv(items: seq<Transaction>, show: real -> string): string
  {
    ArrayToCsv([TransactionHeader] + TransactionRows(items, show))
  }

  /** generateBudgetsCSV. */
  function BudgetsCsv(items: seq<Budget>, show: real -> string): string
  {
    ArrayToCsv([BudgetHeader] + BudgetRows(items, show))
  }

  predicate TransactionNoBreak(t: Transaction, show: real -> string)
  {
    CsvParser.NoBreak(t.date) && CsvParser.NoBreak(t.description) && CsvParser.NoBreak(t.category)
    && CsvParser.NoBreak(show(t.amount))
  }

  predicate BudgetNoBreak(b: Budget, show: real -> string)
  {
    CsvParser.NoBreak(b.category) && CsvParser.NoBreak(show(b.amount)) && CsvParser.NoBreak(b.period)
    && CsvParser.NoBreak(b.createdAt)
  }

  lemma TransactionHeaderLine()
    ensures RowsNoBreak([TransactionHeader])
  {
    var h := TransactionHeader;
    assert forall j :: 0 <= j < 4 ==> CellNoBreak(h[j]);
    forall k, j | 0 <= k < 1 && 0 <= j < |[h][k]| ensures CellNoBreak([h][k][j]) {
      assert [h][k] == h;
    }
  }

  lemma BudgetHeaderLine()
    ensures RowsNoBreak([BudgetHeader])
  {
    var g := BudgetHeader;
    assert forall j :: 0 <= j < 4 ==> CellNoBreak(g[j]);
    forall k, j | 0 <= k < 1 && 0 <= j < |[g][k]| ensures CellNoBreak([g][k][j]) {
      assert [g][k] == g;
    }
  }

  lemma TransactionRowsNoBreak(items: seq<Transaction>, show: real -> string)
    requires forall t :: t in items ==> TransactionNoBreak(t, show)
    ensures RowsNoBreak([TransactionHeader] + TransactionRows(items, show))
  {
    var rows := [TransactionHeader] + TransactionRows(items, show);
    TransactionHeaderLine();
    forall k, j | 0 <= k < |rows| && 0 <= j < |rows[k]| ensures CellNoBreak(rows[k][j]) {
      if k == 0 {
        assert [TransactionHeader][0] == rows[0];
      } else {
        assert items[k - 1] in items;
      }
    }
  }

  lemma BudgetRowsNoBreak(items: seq<Budget>, show: real -> string)
    requires forall b :: b in items ==> BudgetNoBreak(b, show)
    ensures RowsNoBreak([BudgetHeader] + BudgetRows(items, show))
  {
    var rows := [BudgetHeader] + BudgetRows(items, show);
    BudgetHeaderLine();
    forall k, j | 0 <= k < |rows| && 0 <= j < |rows[k]| ensures CellNoBreak(rows[k][j]) {
      if k == 0 {
        assert [BudgetHeader][0] == rows[0];
      } else {
        assert items[k - 1] in items;
      }
    }
  }

  /** The transaction table has the header line and one line per transaction, in order. */
  lemma TransactionsCsvLines(items: seq<Transaction>, show: real -> string)
    requires forall t :: t in items ==> TransactionNoBreak(t, show)
    ensures CsvParser.SplitLines(TransactionsCsv(items, show))
      == [RowLine(TransactionHeader)] + RowLines(TransactionRows(items, show))
  {
    var rows := [TransactionHeader] + TransactionRows(items, show);
    TransactionRowsNoBreak(items, show);
    CsvLines(rows);
    assert RowLines(rows) == [RowLine(TransactionHeader)] + RowLines(TransactionRows(items, show));
  }

  /** The budget table has the header line and one line per budget, in order. */
  lemma BudgetsCsvLines(items: seq<Budget>, show: real -> string)
    requires forall b :: b in items ==> BudgetNoBreak(b, show)
    ensures CsvParser.SplitLines(BudgetsCsv(items, show))
      == [RowLine(BudgetHeader)] + RowLines(BudgetRows(items, show))
  {
    var rows := [BudgetHeader] + BudgetRows(items, show);
    BudgetRowsNoBreak(items, show);
    CsvLines(rows);
    assert RowLines(rows) == [RowLine(BudgetHeader)] + RowLines(BudgetRows(items, show));
  }

  const ReportTitle: string := "CRAWFORD UNIVERSITY STUDENT FINANCIAL DATA"

  /** generateAllDataCSV: the three tables under their section titles, separated by blank lines. */
  function AllDataCsv(data: FinancialData, show: real -> string): string
  {
    Report(TransactionsCsv(data.income, show), TransactionsCsv(data.expenses, show), BudgetsCsv(data.budgets, show))
  }

  function Report(income: string, expenses: string, budgets: string): string
  {
    ReportTitle + "\n\n"
    + "INCOME DATA\n" + income + "\n\n"
    + "EXPENSE DATA\n" + expenses + "\n\n"
    + "BUDGET DATA\n" + budgets
  }

  lemma {:induction false} JoinAppend(a: seq<string>, b: seq<string>, sep: string)
    requires |a| >= 1 && |b| >= 1
    ensures Join(a + b, sep) == Join(a, sep) + sep + Join(b, sep)
    decreases |a|
  {
    if |a| == 1 {
      assert (a + b)[1..] == b;
    } else {
      assert (a + b)[1..] == a[1..] + b;
      JoinAppend(a[1..], b, sep);
    }
  }

  /** The lines of a table written without line breaks inside fields. */
  lemma TableLines(text: string, lines: seq<string>)
    requires lines == CsvParser.SplitLines(text) && !HasChar(text, '\r')
    ensures Join(lines, "\n") == text && |lines| >= 1
    ensures forall j :: 0 <= j < |lines| ==> CsvParser.NoBreak(lines[j])
  {
    CsvParser.JoinSplitLines(text);
    CsvParser.SplitLinesShape(text, []);
  }

  lemma CsvHasNoCr(rows: seq<seq<Cell>>)
    requires |rows| >= 1 && RowsNoBreak(rows)
    ensures !HasChar(ArrayToCsv(rows), '\r')
  {
    CsvLines(rows);
    var lines := RowLines(rows);
    CsvParser.SplitLinesShape(ArrayToCsv(rows), []);
    JoinLacks(lines, "\n", '\r');
  }

  lemma TablesHaveNoCr(data: FinancialData, show: real -> string)
    requires forall t :: t in data.income ==> TransactionNoBreak(t, show)
    requires forall t :: t in data.expenses ==> TransactionNoBreak(t, show)
    requires forall b :: b in data.budgets ==> BudgetNoBreak(b, show)
    ensures !HasChar(TransactionsCsv(data.income, show), '\r')
    ensures !HasChar(TransactionsCsv(data.expenses, show), '\r')
    ensures !HasChar(BudgetsCsv(data.budgets, show), '\r')
  {
    TransactionRowsNoBreak(data.income, show);
    TransactionRowsNoBreak(data.expenses, show);
    BudgetRowsNoBreak(data.budgets, show);
    CsvHasNoCr([TransactionHeader] + TransactionRows(data.income, show));
    CsvHasNoCr([TransactionHeader] + TransactionRows(data.expenses, show));
    CsvHasNoCr([BudgetHeader] + BudgetRows(data.budgets, show));
  }

  lemma SectionTitleLines()
    ensures CsvParser.NoBreak(ReportTitle) && CsvParser.NoBreak("")
    ensures CsvParser.NoBreak("INCOME DATA") && CsvParser.NoBreak("EXPENSE DATA") && CsvParser.NoBreak("BUDGET DATA")
  {
  }

  predicate LinesNoBreak(lines: seq<string>)
  {
    forall j :: 0 <= j < |lines| ==> CsvParser.NoBreak(lines[j])
  }

  /** Appending a table's lines to lines already joined puts the table after one more newline. */
  lemma AppendTable(head: seq<string>, text: string)
    requires |head| >= 1 && LinesNoBreak(head) && !HasChar(text, '\r')
    ensures Join(head + CsvParser.SplitLines(text), "\n") == Join(head, "\n") + "\n" + text
    ensures LinesNoBreak(head + CsvParser.SplitLines(text))
  {
    var lines := CsvParser.SplitLines(text);
    TableLines(text, lines);
    JoinAppend(head, lines, "\n");
    SectionLinesConcat(head, lines);
  }

  lemma AppendTitle(head: seq<string>, title: string)
    requires |head| >= 1 && LinesNoBreak(head) && CsvParser.NoBreak(title)
    ensures Join(head + ["", title], "\n") == Join(head, "\n") + "\n\n" + title
    ensures LinesNoBreak(head + ["", title])
  {
    var tail := ["", title];
    JoinAppend(head, tail, "\n");
    BlankThenTitle(title);
    SectionLinesConcat(head, tail);
  }

  lemma BlankThenTitle(title: string)
    requires CsvParser.NoBreak(title)
    ensures Join(["", title], "\n") == "\n" + title
    ensures LinesNoBreak(["", title])
  {
    var tail := ["", title];
    assert tail[1..] == [title];
    assert Join(tail[1..], "\n") == title;
    assert Join(tail, "\n") == tail[0] + "\n" + title;
    SectionTitleLines();
    assert forall j :: 0 <= j < 2 ==> tail[j] == "" || tail[j] == title;
  }

  lemma Heading()
    ensures Join([ReportTitle, "", "INCOME DATA"], "\n") == ReportTitle + "\n\n" + "INCOME DATA"
    ensures LinesNoBreak([ReportTitle, "", "INCOME DATA"])
  {
    var l := [ReportTitle, "", "INCOME DATA"];
    assert l[1..] == ["", "INCOME DATA"];
    BlankThenTitle("INCOME DATA");
    assert Join(l, "\n") == ReportTitle + "\n" + Join(l[1..], "\n");
    SectionTitleLines();
    forall j | 0 <= j < 3 ensures CsvParser.NoBreak(l[j]) {
      if j == 0 {
        assert l[j] == ReportTitle;
      } else if j == 1 {
        assert l[j] == "";
      } else {
        assert l[j] == "INCOME DATA";
      }
    }
  }

  lemma SectionLinesConcat(a: seq<string>, b: seq<string>)
    requires LinesNoBreak(a) && LinesNoBreak(b)
    ensures LinesNoBreak(a + b)
  {
    forall j | 0 <= j < |a + b| ensures CsvParser.NoBreak((a + b)[j]) {
      if j >= |a| { assert (a + b)[j] == b[j - |a|]; }
    }
  }

  /** The report as the heading followed by three "blank line, title, table" steps. */
  lemma ReportSteps(income: string, expenses: string, budgets: string)
    ensures Report(income, expenses, budgets)
      == ((((ReportTitle + "\n\n" + "INCOME DATA") + "\n" + income) + "\n\n" + "EXPENSE DATA") + "\n" + expenses)
         + "\n\n" + "BUDGET DATA" + "\n" + budgets
  {
    assert "INCOME DATA\n" == "INCOME DATA" + "\n";
    assert "EXPENSE DATA\n" == "EXPENSE DATA" + "\n";
    assert "BUDGET DATA\n" == "BUDGET DATA" + "\n";
  }

  lemma ReportLines(income: string, expenses: string, budgets: string)
    requires !HasChar(income, '\r') && !HasChar(expenses, '\r') && !HasChar(budgets, '\r')
    ensures CsvParser.SplitLines(Report(income, expenses, budgets))
      == [ReportTitle, "", "INCOME DATA"] + CsvParser.SplitLines(income)
         + ["", "EXPENSE DATA"] + CsvParser.SplitLines(expenses)
         + ["", "BUDGET DATA"] + CsvParser.SplitLines(budgets)
  {
    SectionTitleLines();
    var l1 := [ReportTitle, "", "INCOME DATA"];
    Heading();
    var l2 := l1 + CsvParser.SplitLines(income);
    AppendTable(l1, income);
    var l3 := l2 + ["", "EXPENSE DATA"];
    AppendTitle(l2, "EXPENSE DATA");
    var l4 := l3 + CsvParser.SplitLines(expenses);
    AppendTable(l3, expenses);
    var l5 := l4 + ["", "BUDGET DATA"];
    AppendTitle(l4, "BUDGET DATA");
    var l6 := l5 + CsvParser.SplitLines(budgets);
    AppendTable(l5, budgets);
    ReportSteps(income, expenses, budgets);
    CsvParser.SplitLinesOfJoin(l6);
  }

  /**
   * The combined report reads, line by line: the title, a blank line, the
   * income section, a blank line, the expense section, a blank line and the
   * budget section, each section being its title line and its table's lines.
   */
  lemma AllDataCsvLines(data: FinancialData, show: real -> string)
    requires forall t :: t in data.income ==> TransactionNoBreak(t, show)
    requires forall t :: t in data.expenses ==> TransactionNoBreak(t, show)
    requires forall b :: b in data.budgets ==> BudgetNoBreak(b, show)
    ensures CsvParser.SplitLines(AllDataCsv(data, show))
      == [ReportTitle, "", "INCOME DATA"] + CsvParser.SplitLines(TransactionsCsv(data.income, show))
         + ["", "EXPENSE DATA"] + CsvParser.SplitLines(TransactionsCsv(data.expenses, show))
         + ["", "BUDGET DATA"] + CsvParser.SplitLines(BudgetsCsv(data.budgets, show))
  {
    TablesHaveNoCr(data, show);
    ReportLines(TransactionsCsv(data.income, show), TransactionsCsv(data.expenses, show), BudgetsCsv(data.budgets, show));
  }

  // ------------------------------------------------------------ exportToCSV

  function FileName(stem: string): string
  {
    "crawford_student_" + stem + "_export.csv"
  }

  /** exportToCSV: the content and the file name for an export kind; any unknown kind exports everything. */
  function ExportToCsv(kind: string, data: FinancialData, show: real -> string): (r: (string, string))
  {
    match kind
    case "income" => (TransactionsCsv(data.income, show), FileName("income"))
    case "expenses" => (TransactionsCsv(data.expenses, show), FileName("expenses"))
    case "budgets" => (BudgetsCsv(data.budgets, show), FileName("budgets"))
    case _ => (AllDataCsv(data, show), FileName("financial_data"))
  }

  /** Every export is saved under a "crawford_student_…_export.csv" name. */
  lemma ExportFileName(kind: string, data: FinancialData, show: real -> string)
    ensures StartsWith(ExportToCsv(kind, data, show).1, "crawford_student_")
    ensures EndsWith(ExportToCsv(kind, data, show).1, "_export.csv")
  {
    match kind
    case "income" => NameParts("income");
    case "expenses" => NameParts("expenses");
    case "budgets" => NameParts("budgets");
    case _ => NameParts("financial_data");
  }

  lemma NameParts(stem: string)
    ensures StartsWith(FileName(stem), "crawford_student_") && EndsWith(FileName(stem), "_export.csv")
  {
    var name := FileName(stem);
    assert name[..17] == "crawford_student_";
    assert name[|name| - 11..] == "_export.csv";
  }
}
