/**
 * The simplified import manager of the PHP build: its own comma tokenizer,
 * newline-only line splitting, and the state it keeps between the file
 * upload, the column selects and the preview.
 */
module ImportSimple {
  import opened Wrappers
  import opened Text
  import opened ImportRules
  import CsvParser

  const Quote: char := '"'

  /**
   * parseCSVLine: every quote toggles the quoted state and is dropped; a
   * comma outside quotes ends the current field, which is pushed trimmed.
   */
  function Fields(s: string, cur: string, inQuotes: bool): (r: seq<string>)
    ensures |r| >= 1
    decreases |s|
  {
    if s == [] then [Trim(cur)]
    else if s[0] == Quote then Fields(s[1..], cur, !inQuotes)
    else if s[0] == ',' && !inQuotes then [Trim(cur)] + Fields(s[1..], [], inQuotes)
    else Fields(s[1..], cur + [s[0]], inQuotes)
  }

  function LineFields(line: string): seq<string>
  {
    Fields(line, [], false)
  }

  /** The commas the tokenizer splits at: those seen while the quote count so far is even. */
  function SplittingCommas(s: string, inQuotes: bool): nat
    decreases |s|
  {
    if s == [] then 0
    else if s[0] == Quote then SplittingCommas(s[1..], !inQuotes)
    else (if s[0] == ',' && !inQuotes then 1 else 0) + SplittingCommas(s[1..], inQuotes)
  }

  lemma {:induction false} FieldsCount(s: string, cur: string, inQuotes: bool)
    ensures |Fields(s, cur, inQuotes)| == 1 + SplittingCommas(s, inQuotes)
    decreases |s|
  {
    if s != [] {
      if s[0] == Quote {
        FieldsCount(s[1..], cur, !inQuotes);
      } else if s[0] == ',' && !inQuotes {
        FieldsCount(s[1..], [], inQuotes);
      } else {
        FieldsCount(s[1..], cur + [s[0]], inQuotes);
      }
    }
  }

  lemma ConsQuoteFree(field: string, rest: seq<string>)
    requires !HasChar(field, Quote)
    requires forall k :: 0 <= k < |rest| ==> !HasChar(rest[k], Quote)
    ensures forall k :: 0 <= k < |[field] + rest| ==> !HasChar(([field] + rest)[k], Quote)
  {
    forall k | 0 <= k < |[field] + rest| ensures !HasChar(([field] + rest)[k], Quote) {
      if k > 0 {
        assert ([field] + rest)[k] == rest[k - 1];
      }
    }
  }

  lemma {:induction false} FieldsQuoteFree(s: string, cur: string, inQuotes: bool)
    requires !HasChar(cur, Quote)
    ensures forall k :: 0 <= k < |Fields(s, cur, inQuotes)| ==> !HasChar(Fields(s, cur, inQuotes)[k], Quote)
    decreases |s|
  {
    if s == [] {
      TrimKeepsChars(cur, Quote);
    } else if s[0] == Quote {
      FieldsQuoteFree(s[1..], cur, !inQuotes);
    } else if s[0] == ',' && !inQuotes {
      FieldsQuoteFree(s[1..], [], inQuotes);
      TrimKeepsChars(cur, Quote);
      ConsQuoteFree(Trim(cur), Fields(s[1..], [], inQuotes));
    } else {
      HasCharConcat(cur, [s[0]], Quote);
      FieldsQuoteFree(s[1..], cur + [s[0]], inQuotes);
    }
  }

  lemma {:induction false} FieldsTrimmed(s: string, cur: string, inQuotes: bool)
    ensures forall k :: 0 <= k < |Fields(s, cur, inQuotes)| ==> NoEdgeSpace(Fields(s, cur, inQuotes)[k])
    decreases |s|
  {
    if s != [] {
      if s[0] == Quote {
        FieldsTrimmed(s[1..], cur, !inQuotes);
      } else if s[0] == ',' && !inQuotes {
        FieldsTrimmed(s[1..], [], inQuotes);
        var rest := Fields(s[1..], [], inQuotes);
        assert forall k :: 1 <= k < |[Trim(cur)] + rest| ==> ([Trim(cur)] + rest)[k] == rest[k - 1];
      } else {
        FieldsTrimmed(s[1..], cur + [s[0]], inQuotes);
      }
    }
  }

  /**
   * parseCSVLine returns one more field than there are commas outside
   * quotes; no field contains a quote character (quotes only toggle the
   * state, there is no escape), and every field is trimmed.
   */
  lemma LineFieldsSpec(line: string)
    ensures |LineFields(line)| == 1 + SplittingCommas(line, false)
    ensures forall k :: 0 <= k < |LineFields(line)| ==>
      !HasChar(LineFields(line)[k], Quote) && NoEdgeSpace(LineFields(line)[k])
  {
    FieldsCount(line, [], false);
    FieldsQuoteFree(line, [], false);
    FieldsTrimmed(line, [], false);
  }

  /** processCSV's `text.split("\n").filter((line) => line.trim())`. */
  function NonBlankLines(lines: seq<string>): (r: seq<string>)
    ensures |r| <= |lines|
  {
    if lines == [] then []
    else (if Trim(lines[0]) != [] then [lines[0]] else []) + NonBlankLines(lines[1..])
  }

  /** The kept lines are exactly the non-blank ones. */
  lemma {:induction false} NonBlankLinesMembers(lines: seq<string>)
    ensures forall l :: l in NonBlankLines(lines) <==> l in lines && Trim(l) != []
  {
    if lines != [] {
      NonBlankLinesMembers(lines[1..]);
      assert lines == [lines[0]] + lines[1..];
    }
  }

  /** Text without blank lines keeps all its lines, in order. */
  lemma {:induction false} NonBlankLinesKeepAll(lines: seq<string>)
    requires forall k :: 0 <= k < |lines| ==> Trim(lines[k]) != []
    ensures NonBlankLines(lines) == lines
  {
    if lines != [] {
      forall k | 0 <= k < |lines[1..]| ensures Trim(lines[1..][k]) != [] {
        assert lines[1..][k] == lines[k + 1];
      }
      NonBlankLinesKeepAll(lines[1..]);
      assert [lines[0]] + lines[1..] == lines;
    }
  }

  function LinesOf(text: string): seq<string>
  {
    NonBlankLines(Split(text, '\n'))
  }

  /** Each line through parseCSVLine, in order. */
  function FieldsOfLines(lines: seq<string>): (r: seq<seq<string>>)
    ensures |r| == |lines|
  {
    if lines == [] then [] else [LineFields(lines[0])] + FieldsOfLines(lines[1..])
  }

  lemma {:induction false} FieldsOfLinesAt(lines: seq<string>, k: nat)
    requires k < |lines|
    ensures FieldsOfLines(lines)[k] == LineFields(lines[k])
  {
    if k > 0 {
      FieldsOfLinesAt(lines[1..], k - 1);
    }
  }

  lemma {:induction false} FieldsOfLinesSnoc(lines: seq<string>, line: string)
    ensures FieldsOfLines(lines + [line]) == FieldsOfLines(lines) + [LineFields(line)]
  {
    if lines == [] {
      assert lines + [line] == [line];
    } else {
      assert (lines + [line])[1..] == lines[1..] + [line];
      FieldsOfLinesSnoc(lines[1..], line);
    }
  }

  function TableOf(lines: seq<string>): Table
    requires |lines| >= 1
  {
    Table(LineFields(lines[0]), FieldsOfLines(lines[1..]))
  }

  /** The environment the simplified manager previews with: its own amount noise and rule table, no source tag. */
  function SimpleEnvironment(now: int, build: DateRequest -> Option<string>, parseFloat: string -> Option<real>): Environment
  {
    Environment(now, build, parseFloat, SimpleAmountNoise, SimpleRules, None)
  }

  /** The simplified import manager's state; `selects` are the four column `<select>` values. */
  class ImportManager {
    var currentData: Option<Table>
    var parsedTransactions: seq<Parsed>
    var columnMapping: Columns
    var selects: Columns

    constructor()
      ensures currentData == None && parsedTransactions == [] && columnMapping == Unset && selects == Unset
    {
      currentData := None;
      parsedTransactions := [];
      columnMapping := Unset;
      selects := Unset;
    }

    method ParseCsvLine(line: string) returns (fields: seq<string>)
      ensures fields == LineFields(line)
    {
      var result: seq<string> := [];
      var current: string := [];
      var inQuotes := false;
      for i := 0 to |line|
        invariant result + Fields(line[i..], current, inQuotes) == LineFields(line)
      {
        var c := line[i];
        ghost var rest := line[i..];
        assert rest[0] == c && rest[1..] == line[i + 1..];
        if c == Quote {
          inQuotes := !inQuotes;
        } else if c == ',' && !inQuotes {
          assert result + ([Trim(current)] + Fields(line[i + 1..], [], inQuotes))
              == (result + [Trim(current)]) + Fields(line[i + 1..], [], inQuotes);
          result := result + [Trim(current)];
          current := [];
        } else {
          current := current + [c];
        }
      }
      assert line[|line|..] == [];
      result := result + [Trim(current)];
      fields := result;
    }

    /** updateColumnMapping. */
    method UpdateColumnMapping()
      modifies this
      ensures columnMapping == ToMapping(selects)
      ensures currentData == old(currentData) && parsedTransactions == old(parsedTransactions) && selects == old(selects)
    {
      columnMapping := ToMapping(selects);
    }

    /** autoDetectColumns: each header that mentions a role writes its index into that role's select. */
    method AutoDetectColumns(headers: seq<string>)
      modifies this
      ensures selects == Detected(headers, SimpleDescriptionKeys, old(selects))
      ensures columnMapping == ToMapping(selects)
      ensures currentData == old(currentData) && parsedTransactions == old(parsedTransactions)
    {
      ghost var before := selects;
      for i := 0 to |headers|
        invariant selects == Detected(headers[..i], SimpleDescriptionKeys, before)
        invariant currentData == old(currentData) && parsedTransactions == old(parsedTransactions)
      {
        DetectedSnoc(headers, i, SimpleDescriptionKeys, before);
        var role := HeaderRole(headers[i], SimpleDescriptionKeys);
        if role.Some? {
          selects := selects.With(role.value, Some(i));
        }
      }
      assert headers[..|headers|] == headers;
      UpdateColumnMapping();
    }

    /**
     * processCSV: at least a header and one data line must remain after
     * dropping blank lines; the selects are rebuilt (no column chosen) and
     * then filled by auto-detection; the deferred showPreview then runs
     * updatePreview, which rebuilds the preview when detection found the
     * date, description and amount columns and leaves it alone otherwise.
     */
    method ProcessCsv(text: string, now: int, build: DateRequest -> Option<string>, parseFloat: string -> Option<real>)
      returns (r: Result<(), string>)
      modifies this
      ensures |LinesOf(text)| < 2 <==> r.Err?
      ensures r.Err? ==> (currentData == old(currentData) && selects == old(selects)
        && columnMapping == old(columnMapping) && parsedTransactions == old(parsedTransactions))
      ensures r.Ok? ==> (currentData == Some(TableOf(LinesOf(text)))
        && selects == Detected(TableOf(LinesOf(text)).headers, SimpleDescriptionKeys, Unset)
        && columnMapping == ToMapping(selects))
      ensures r.Ok? && !Ready(columnMapping) ==> parsedTransactions == old(parsedTransactions)
      ensures r.Ok? && Ready(columnMapping) ==>
        parsedTransactions == PreviewRows(TableOf(LinesOf(text)).rows, columnMapping, SimpleEnvironment(now, build, parseFloat))
    {
      var read := ReadCsv(text);
      if read.Err? {
        return Err(read.error);
      }
      var table := read.value;
      currentData := Some(table);
      selects := Unset;
      AutoDetectColumns(table.headers);
      UpdatePreview(now, build, parseFloat);
      r := Ok(());
    }

    /** The non-blank lines of the file as a table; fewer than two of them is processCSV's error. */
    method ReadCsv(text: string) returns (r: Result<Table, string>)
      ensures |LinesOf(text)| < 2 <==> r.Err?
      ensures r.Ok? ==> r.value == TableOf(LinesOf(text))
    {
      var lines := LinesOf(text);
      if |lines| < 2 {
        return Err("CSV file must have at least a header and one data row");
      }
      var table := ReadTable(lines);
      r := Ok(table);
    }

    /** The header line and the data lines, each through parseCSVLine. */
    method ReadTable(lines: seq<string>) returns (table: Table)
      requires |lines| >= 2
      ensures table == TableOf(lines)
    {
      var headers := ParseCsvLine(lines[0]);
      var rows: seq<seq<string>> := [];
      for k := 1 to |lines|
        invariant rows == FieldsOfLines(lines[1..k])
      {
        FieldsOfLinesSnoc(lines[1..k], lines[k]);
        assert lines[1..k + 1] == lines[1..k] + [lines[k]];
        var row := ParseCsvLine(lines[k]);
        rows := rows + [row];
      }
      assert lines[1..|lines|] == lines[1..];
      table := Table(headers, rows);
    }

    /**
     * applyBankTemplate: an unknown template or no loaded data changes
     * nothing; otherwise the date, description and amount selects take the
     * template's columns and the mapping and preview are refreshed.
     */
    method ApplyBankTemplate(name: string, now: int, build: DateRequest -> Option<string>, parseFloat: string -> Option<real>)
      modifies this
      ensures name !in SimpleTemplates || old(currentData).None? ==>
        currentData == old(currentData) && selects == old(selects)
        && columnMapping == old(columnMapping) && parsedTransactions == old(parsedTransactions)
      ensures name in SimpleTemplates && old(currentData).Some? ==>
        selects == WithTemplate(old(selects), SimpleTemplates[name], |old(currentData).value.headers|)
        && columnMapping == ToMapping(selects)
        && currentData == old(currentData) && parsedTransactions == old(parsedTransactions)
    {
      if name !in SimpleTemplates || currentData.None? {
        return;
      }
      selects := WithTemplate(selects, SimpleTemplates[name], |currentData.value.headers|);
      UpdateColumnMapping();
      TemplatesLeaveDateUnset(old(selects), name, |currentData.value.headers|);
      UpdatePreview(now, build, parseFloat);
    }

    /**
     * updatePreview: without loaded data or with no date, description or
     * amount column nothing changes; otherwise the parsed transactions are
     * rebuilt from every row.
     */
    method UpdatePreview(now: int, build: DateRequest -> Option<string>, parseFloat: string -> Option<real>)
      modifies this
      ensures currentData == old(currentData) && columnMapping == old(columnMapping) && selects == old(selects)
      ensures currentData.None? || !Ready(columnMapping) ==> parsedTransactions == old(parsedTransactions)
      ensures currentData.Some? && Ready(columnMapping) ==>
        parsedTransactions == PreviewRows(currentData.value.rows, columnMapping, SimpleEnvironment(now, build, parseFloat))
    {
      if currentData.None? || !Ready(columnMapping) {
        return;
      }
      parsedTransactions := PreviewRows(currentData.value.rows, columnMapping, SimpleEnvironment(now, build, parseFloat));
    }

    /** resetImport. */
    method ResetImport()
      modifies this
      ensures currentData == None && parsedTransactions == [] && columnMapping == Unset && selects == old(selects)
    {
      currentData := None;
      parsedTransactions := [];
      columnMapping := Unset;
    }
  }
}
