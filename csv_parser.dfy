/**
 * The client-side CSV reader for bank statements (class CSVParser):
 * line splitting, delimiter detection, the quote-aware field scanner, row
 * filtering against the header width, and the amount and description cleaners.
 */
module CsvParser {
  import opened Wrappers
  import opened Text
  import Amounts

  const Quote: char := '"'

  /** The delimiters tried on the header line, in order. */
  const Candidates: seq<char> := [',', ';', '\t', '|']

  datatype CsvData = CsvData(headers: seq<string>, rows: seq<seq<string>>, delimiter: char)

  // ---------------------------------------------------------------- lines

  /** Lines of `s` after the pending line `cur`; a line ends at CRLF, a lone CR or LF. */
  function SplitLinesFrom(s: string, cur: string): (r: seq<string>)
    ensures |r| >= 1
    decreases |s|
  {
    if s == [] then [cur]
    else if s[0] == '\r' && |s| > 1 && s[1] == '\n' then [cur] + SplitLinesFrom(s[2..], [])
    else if s[0] == '\r' || s[0] == '\n' then [cur] + SplitLinesFrom(s[1..], [])
    else SplitLinesFrom(s[1..], cur + [s[0]])
  }

  /** `text.split(/\r\n|\r|\n/)`. */
  function SplitLines(text: string): (r: seq<string>)
    ensures |r| >= 1
  {
    SplitLinesFrom(text, [])
  }

  predicate NoBreak(s: string)
  {
    !HasChar(s, '\r') && !HasChar(s, '\n')
  }

  /** No returned line contains a line terminator, and there is always at least one line. */
  lemma {:induction false} SplitLinesShape(s: string, cur: string)
    requires NoBreak(cur)
    ensures |SplitLinesFrom(s, cur)| >= 1
    ensures forall k :: 0 <= k < |SplitLinesFrom(s, cur)| ==> NoBreak(SplitLinesFrom(s, cur)[k])
    decreases |s|
  {
    if s == [] {
    } else if s[0] == '\r' && |s| > 1 && s[1] == '\n' {
      SplitLinesShape(s[2..], []);
    } else if s[0] == '\r' || s[0] == '\n' {
      SplitLinesShape(s[1..], []);
    } else {
      HasCharConcat(cur, [s[0]], '\r');
      HasCharConcat(cur, [s[0]], '\n');
      SplitLinesShape(s[1..], cur + [s[0]]);
    }
  }

  /** Without carriage returns, the line splitter is `split("\n")`. */
  lemma {:induction false} SplitLinesIsSplit(s: string, cur: string)
    requires !HasChar(s, '\r')
    ensures SplitLinesFrom(s, cur) == [cur + Split(s, '\n')[0]] + Split(s, '\n')[1..]
    decreases |s|
  {
    if s == [] {
      assert cur + [] == cur;
    } else {
      HasCharTail(s, '\r');
      assert s[0] != '\r' && !HasChar(s[1..], '\r');
      var p := Split(s[1..], '\n');
      if s[0] == '\n' {
        SplitLinesIsSplit(s[1..], []);
        assert SplitLinesFrom(s, cur) == [cur] + SplitLinesFrom(s[1..], []);
        assert [] + p[0] == p[0];
        assert [p[0]] + p[1..] == p;
        assert Split(s, '\n') == [[]] + p;
        assert cur + [] == cur;
      } else {
        SplitLinesIsSplit(s[1..], cur + [s[0]]);
        assert SplitLinesFrom(s, cur) == SplitLinesFrom(s[1..], cur + [s[0]]);
        var q := Split(s, '\n');
        assert q == [[s[0]] + p[0]] + p[1..];
        assert q[0] == [s[0]] + p[0] && q[1..] == p[1..];
        assert cur + [s[0]] + p[0] == cur + ([s[0]] + p[0]);
      }
    }
  }

  /** Splitting text without carriage returns and joining the lines with "\n" gives the text back. */
  lemma JoinSplitLines(text: string)
    requires !HasChar(text, '\r')
    ensures Join(SplitLines(text), "\n") == text
  {
    SplitLinesIsSplit(text, []);
    JoinSplit(text, '\n');
    var p := Split(text, '\n');
    assert [] + p[0] == p[0];
    assert [p[0]] + p[1..] == p;
  }

  /** Lines without terminators joined by "\n" split back into the same lines. */
  lemma SplitLinesOfJoin(lines: seq<string>)
    requires |lines| >= 1
    requires forall k :: 0 <= k < |lines| ==> NoBreak(lines[k])
    ensures SplitLines(Join(lines, "\n")) == lines
  {
    JoinHasNoCr(lines);
    SplitLinesIsSplit(Join(lines, "\n"), []);
    SplitJoin(lines, '\n');
    var p := Split(Join(lines, "\n"), '\n');
    assert [] + p[0] == p[0];
    assert [p[0]] + p[1..] == p;
  }

  lemma {:induction false} JoinHasNoCr(lines: seq<string>)
    requires forall k :: 0 <= k < |lines| ==> NoBreak(lines[k])
    ensures !HasChar(Join(lines, "\n"), '\r')
    decreases |lines|
  {
    if |lines| > 1 {
      JoinHasNoCr(lines[1..]);
      var j := Join(lines, "\n");
      var rest := Join(lines[1..], "\n");
      assert j == lines[0] + ("\n" + rest);
      HasCharConcat(lines[0], "\n" + rest, '\r');
      HasCharConcat("\n", rest, '\r');
    }
  }

  // ------------------------------------------------------ delimiter detection

  /** Number of occurrences of `c` in `s` (`match(/\c/g).length`). */
  function Count(s: string, c: char): (n: nat)
    ensures n <= |s|
    ensures n == 0 <==> !HasChar(s, c)
  {
    if s == [] then 0
    else
      assert forall i :: 0 < i < |s| ==> s[i] == s[1..][i - 1];
      (if s[0] == c then 1 else 0) + Count(s[1..], c)
  }

  /** The forEach over the candidates from index `k` on, carrying the best so far. */
  function PickFrom(line: string, k: nat, best: char, max: nat): (d: char)
    requires k <= |Candidates|
    decreases |Candidates| - k
  {
    if k == |Candidates| then best
    else if Count(line, Candidates[k]) > max then PickFrom(line, k + 1, Candidates[k], Count(line, Candidates[k]))
    else PickFrom(line, k + 1, best, max)
  }

  /**
   * The detected delimiter is the first candidate with the largest count:
   * later candidates win only with a strictly larger count, and a line with no
   * candidate at all keeps the comma.
   */
  function DetectedDelimiter(line: string): (d: char)
    ensures exists j :: (0 <= j < |Candidates| && d == Candidates[j]
      && (forall i :: 0 <= i < |Candidates| ==> Count(line, Candidates[i]) <= Count(line, d))
      && (forall i :: 0 <= i < j ==> Count(line, Candidates[i]) < Count(line, d)))
    ensures (forall i :: 0 <= i < |Candidates| ==> Count(line, Candidates[i]) == 0) ==> d == ','
  {
    PickFromLeads(line, 0, ',', 0, -1);
    PickFrom(line, 0, ',', 0)
  }

  /**
   * The forEach's running state after `k` candidates: `max` is the count of
   * `best`, which is candidate `j`, the first to reach it; `j` is negative
   * while no candidate has occurred and `best` is still the comma.
   */
  predicate Leading(line: string, k: nat, best: char, max: nat, j: int)
    requires k <= |Candidates|
  {
    (forall i :: 0 <= i < k ==> Count(line, Candidates[i]) <= max)
    && if j < 0 then max == 0 && best == ','
       else j < k && best == Candidates[j] && Count(line, best) == max
            && forall i :: 0 <= i < j ==> Count(line, Candidates[i]) < max
  }

  /** The delimiter the forEach ends with, once every candidate has been counted. */
  predicate Picked(line: string, d: char)
  {
    (exists j :: (0 <= j < |Candidates| && d == Candidates[j]
      && (forall i :: 0 <= i < |Candidates| ==> Count(line, Candidates[i]) <= Count(line, d))
      && (forall i :: 0 <= i < j ==> Count(line, Candidates[i]) < Count(line, d))))
    && ((forall i :: 0 <= i < |Candidates| ==> Count(line, Candidates[i]) == 0) ==> d == ',')
  }

  /** A step of the forEach whose candidate beats the count so far makes it the leader. */
  lemma LeadingTakes(line: string, k: nat, best: char, max: nat, j: int)
    requires k < |Candidates| && Leading(line, k, best, max, j)
    requires Count(line, Candidates[k]) > max
    ensures Leading(line, k + 1, Candidates[k], Count(line, Candidates[k]), k)
  {
  }

  /** A step of the forEach whose candidate does not beat the count so far keeps the leader. */
  lemma LeadingKeeps(line: string, k: nat, best: char, max: nat, j: int)
    requires k < |Candidates| && Leading(line, k, best, max, j)
    requires Count(line, Candidates[k]) <= max
    ensures Leading(line, k + 1, best, max, j)
  {
  }

  /** After the last candidate the running state is the answer. */
  lemma LeadingDone(line: string, best: char, max: nat, j: int)
    requires Leading(line, |Candidates|, best, max, j)
    ensures Picked(line, best)
  {
    if j < 0 {
      assert Candidates[0] == ',';
      assert forall i :: 0 <= i < |Candidates| ==> Count(line, Candidates[i]) <= Count(line, best);
    } else if j > 0 {
      assert Count(line, Candidates[0]) < max;
    }
  }

  lemma {:induction false} PickFromLeads(line: string, k: nat, best: char, max: nat, j: int)
    requires k <= |Candidates| && Leading(line, k, best, max, j)
    ensures Picked(line, PickFrom(line, k, best, max))
    decreases |Candidates| - k
  {
    if k == |Candidates| {
      LeadingDone(line, best, max, j);
    } else {
      var c := Count(line, Candidates[k]);
      if c > max {
        assert PickFrom(line, k, best, max) == PickFrom(line, k + 1, Candidates[k], c);
        LeadingTakes(line, k, best, max, j);
        PickFromLeads(line, k + 1, Candidates[k], c, k);
      } else {
        assert PickFrom(line, k, best, max) == PickFrom(line, k + 1, best, max);
        LeadingKeeps(line, k, best, max, j);
        PickFromLeads(line, k + 1, best, max, j);
      }
    }
  }

  // ------------------------------------------------------------ field scanner

  /**
   * The raw fields of the rest `s` of a line, given the field `cur` being built
   * and whether the scanner is inside quotes. A doubled quote inside quotes is
   * one literal quote; any other quote toggles the quote state and is dropped;
   * the delimiter outside quotes ends a field.
   */
  function Scan(s: string, delim: char, cur: string, inQuotes: bool): (fields: seq<string>)
    decreases |s|
  {
    if s == [] then [cur]
    else if s[0] == Quote then
      if inQuotes && |s| > 1 && s[1] == Quote then Scan(s[2..], delim, cur + [Quote], inQuotes)
      else Scan(s[1..], delim, cur, !inQuotes)
    else if s[0] == delim && !inQuotes then [cur] + Scan(s[1..], delim, [], false)
    else Scan(s[1..], delim, cur + [s[0]], inQuotes)
  }

  /** A field wrapped in quotes after trimming loses one outer pair (`slice(1, -1)`). */
  function Unquote(f: string): (r: string)
    ensures |r| <= |f|
  {
    if |f| >= 1 && f[0] == Quote && f[|f| - 1] == Quote then
      if |f| >= 2 then f[1..|f| - 1] else []
    else f
  }

  function TrimAll(fields: seq<string>): (r: seq<string>)
    ensures |r| == |fields|
    ensures forall k :: 0 <= k < |r| ==> r[k] == Trim(fields[k])
  {
    if fields == [] then [] else [Trim(fields[0])] + TrimAll(fields[1..])
  }

  lemma {:induction false} TrimAllSnoc(raw: seq<string>, x: string)
    ensures TrimAll(raw + [x]) == TrimAll(raw) + [Trim(x)]
  {
    if raw == [] {
      assert raw + [x] == [x];
    } else {
      assert (raw + [x])[0] == raw[0] && (raw + [x])[1..] == raw[1..] + [x];
      TrimAllSnoc(raw[1..], x);
      ConcatAssociates([Trim(raw[0])], TrimAll(raw[1..]), [Trim(x)]);
    }
  }

  function UnquoteAll(fields: seq<string>): (r: seq<string>)
    ensures |r| == |fields|
    ensures forall k :: 0 <= k < |r| ==> r[k] == Unquote(fields[k])
  {
    if fields == [] then [] else [Unquote(fields[0])] + UnquoteAll(fields[1..])
  }

  /** What parseLine returns for `line` with delimiter `delim`. */
  function LineFields(line: string, delim: char): seq<string>
  {
    UnquoteAll(TrimAll(Scan(line, delim, [], false)))
  }

  /** Scanning text free of quotes is splitting at the delimiter. */
  lemma {:induction false} ScanWithoutQuotes(s: string, delim: char, cur: string)
    requires !HasChar(s, Quote)
    ensures Scan(s, delim, cur, false) == [cur + Split(s, delim)[0]] + Split(s, delim)[1..]
    decreases |s|
  {
    if s == [] {
      assert cur + [] == cur;
    } else {
      HasCharTail(s, Quote);
      assert s[0] != Quote && !HasChar(s[1..], Quote);
      var rest := Split(s[1..], delim);
      if s[0] == delim {
        ScanWithoutQuotes(s[1..], delim, []);
        assert Scan(s, delim, cur, false) == [cur] + Scan(s[1..], delim, [], false);
        assert [] + rest[0] == rest[0];
        assert [rest[0]] + rest[1..] == rest;
        assert Split(s, delim) == [[]] + rest;
        assert cur + [] == cur;
      } else {
        ScanWithoutQuotes(s[1..], delim, cur + [s[0]]);
        assert Scan(s, delim, cur, false) == Scan(s[1..], delim, cur + [s[0]], false);
        var q := Split(s, delim);
        assert q == [[s[0]] + rest[0]] + rest[1..];
        assert q[0] == [s[0]] + rest[0] && q[1..] == rest[1..];
        assert cur + [s[0]] + rest[0] == cur + ([s[0]] + rest[0]);
      }
    }
  }

  /** A line without quote characters parses as `split(delim)` with every field trimmed. */
  lemma NoQuotesIsSplit(line: string, delim: char)
    requires !HasChar(line, Quote)
    ensures LineFields(line, delim) == TrimAll(Split(line, delim))
  {
    ScanWithoutQuotes(line, delim, []);
    var parts := Split(line, delim);
    assert [] + parts[0] == parts[0];
    assert Scan(line, delim, [], false) == parts;
    var trimmed := TrimAll(parts);
    forall k | 0 <= k < |trimmed| ensures Unquote(trimmed[k]) == trimmed[k] {
      PartUnquoted(line, delim, k);
    }
    UnquoteAllUnquoted(trimmed);
  }

  /** Fields that no unquoting changes come through `UnquoteAll` as they are. */
  lemma UnquoteAllUnquoted(fields: seq<string>)
    requires forall k :: 0 <= k < |fields| ==> Unquote(fields[k]) == fields[k]
    ensures UnquoteAll(fields) == fields
  {
    assert forall k :: 0 <= k < |fields| ==> UnquoteAll(fields)[k] == fields[k];
  }

  /** A trimmed split part of quote-free text is left alone by the unquoting. */
  lemma PartUnquoted(line: string, delim: char, k: nat)
    requires !HasChar(line, Quote) && k < |Split(line, delim)|
    ensures Unquote(Trim(Split(line, delim)[k])) == Trim(Split(line, delim)[k])
  {
    var part := Split(line, delim)[k];
    assert !HasChar(part, Quote) by {
      if HasChar(part, Quote) {
        SplitPartsFromText(line, delim, k);
      }
    }
    TrimKeepsChars(part, Quote);
    var t := Trim(part);
    if |t| >= 1 { assert t[0] != Quote; }
  }

  /** Every character of a split part comes from the text. */
  lemma {:induction false} SplitPartsFromText(s: string, d: char, k: nat)
    requires k < |Split(s, d)|
    ensures forall i :: 0 <= i < |Split(s, d)[k]| ==> HasChar(s, Split(s, d)[k][i])
    decreases |s|
  {
    if s != [] {
      var rest := Split(s[1..], d);
      forall c | HasChar(s[1..], c) ensures HasChar(s, c) {
        HasCharTail(s, c);
      }
      if s[0] == d {
        if k > 0 { SplitPartsFromText(s[1..], d, k - 1); }
      } else {
        SplitPartsFromText(s[1..], d, k);
        if k == 0 {
          forall i | 0 <= i < |Split(s, d)[0]| ensures HasChar(s, Split(s, d)[0][i]) {
            if i == 0 { assert s[0] == Split(s, d)[0][0]; }
            else { assert Split(s, d)[0][i] == rest[0][i - 1]; }
          }
        } else {
          assert Split(s, d)[k] == rest[k];
        }
      }
    }
  }

  /** The number of fields is one more than the number of delimiters outside quotes. */
  function SeparatorCount(s: string, delim: char, inQuotes: bool): (n: nat)
    decreases |s|
  {
    if s == [] then 0
    else if s[0] == Quote then
      if inQuotes && |s| > 1 && s[1] == Quote then SeparatorCount(s[2..], delim, inQuotes)
      else SeparatorCount(s[1..], delim, !inQuotes)
    else if s[0] == delim && !inQuotes then 1 + SeparatorCount(s[1..], delim, false)
    else SeparatorCount(s[1..], delim, inQuotes)
  }

  lemma {:induction false} ScanLength(s: string, delim: char, cur: string, inQuotes: bool)
    ensures |Scan(s, delim, cur, inQuotes)| == 1 + SeparatorCount(s, delim, inQuotes)
    decreases |s|
  {
    if s == [] {
    } else if s[0] == Quote {
      if inQuotes && |s| > 1 && s[1] == Quote {
        ScanLength(s[2..], delim, cur + [Quote], inQuotes);
      } else {
        ScanLength(s[1..], delim, cur, !inQuotes);
      }
    } else if s[0] == delim && !inQuotes {
      ScanLength(s[1..], delim, [], false);
    } else {
      ScanLength(s[1..], delim, cur + [s[0]], inQuotes);
    }
  }

  lemma FieldCount(line: string, delim: char)
    ensures |LineFields(line, delim)| == 1 + SeparatorCount(line, delim, false)
  {
    ScanLength(line, delim, [], false);
  }

  // ------------------------------------------------------------ rows

  /** A data line is kept when it is not blank and has as many fields as the header. */
  function KeptRows(lines: seq<string>, delim: char, width: nat): (rows: seq<seq<string>>)
    ensures |rows| <= |lines|
  {
    if lines == [] then []
    else
      var line := Trim(lines[0]);
      var rest := KeptRows(lines[1..], delim, width);
      if line != [] && |LineFields(line, delim)| == width then [LineFields(line, delim)] + rest
      else rest
  }

  lemma KeptRowsCons(lines: seq<string>, delim: char, width: nat)
    requires lines != []
    ensures var line := Trim(lines[0]);
      KeptRows(lines, delim, width)
      == (if line != [] && |LineFields(line, delim)| == width then [LineFields(line, delim)] else [])
         + KeptRows(lines[1..], delim, width)
  {
  }

  /** One step of parseCSV's row loop: the rows so far, then line `i` if it is kept, then the rest. */
  lemma KeptRowsStep(lines: seq<string>, i: nat, delim: char, width: nat, rows: seq<seq<string>>)
    requires i < |lines|
    requires rows + KeptRows(lines[i..], delim, width) == KeptRows(lines, delim, width)
    ensures var line := Trim(lines[i]);
      (rows + (if line != [] && |LineFields(line, delim)| == width then [LineFields(line, delim)] else []))
      + KeptRows(lines[i + 1..], delim, width) == KeptRows(lines, delim, width)
  {
    var rest := lines[i..];
    assert rest[0] == lines[i] && rest[1..] == lines[i + 1..];
    KeptRowsCons(rest, delim, width);
    var line := Trim(lines[i]);
    var kept := if line != [] && |LineFields(line, delim)| == width then [LineFields(line, delim)] else [];
    var after := KeptRows(lines[i + 1..], delim, width);
    assert KeptRows(rest, delim, width) == kept + after;
    ConcatAssociates(rows, kept, after);
  }

  lemma ConcatAssociates<T>(a: seq<T>, b: seq<T>, c: seq<T>)
    ensures a + (b + c) == (a + b) + c
  {
  }

  /** Line `k` is non-blank and its parse, `row`, has the header's width. */
  predicate KeptAt(lines: seq<string>, k: int, delim: char, width: nat, row: seq<string>)
  {
    0 <= k < |lines| && Trim(lines[k]) != [] && row == LineFields(Trim(lines[k]), delim) && |row| == width
  }

  /** The rows are exactly the parses of the non-blank lines with the header's width. */
  lemma {:induction false} KeptRowsExactly(lines: seq<string>, delim: char, width: nat, row: seq<string>)
    ensures row in KeptRows(lines, delim, width) <==> exists k :: KeptAt(lines, k, delim, width, row)
  {
    if lines != [] {
      var tail := lines[1..];
      KeptRowsExactly(tail, delim, width, row);
      forall k | KeptAt(tail, k, delim, width, row) ensures KeptAt(lines, k + 1, delim, width, row) {
        assert lines[k + 1] == tail[k];
      }
      forall k | KeptAt(lines, k, delim, width, row) && k > 0 ensures KeptAt(tail, k - 1, delim, width, row) {
        assert lines[k] == tail[k - 1];
      }
      if row in KeptRows(lines, delim, width) && row !in KeptRows(tail, delim, width) {
        assert KeptAt(lines, 0, delim, width, row);
      }
    }
  }

  /** Every kept row has the header's width. */
  lemma KeptRowsWidth(lines: seq<string>, delim: char, width: nat)
    ensures forall r :: r in KeptRows(lines, delim, width) ==> |r| == width
  {
    forall r | r in KeptRows(lines, delim, width) ensures |r| == width {
      KeptRowsExactly(lines, delim, width, r);
    }
  }

  /** The result of parseCSV for a whole text. */
  function CsvOf(text: string): (data: CsvData)
    ensures forall r :: r in data.rows ==> |r| == |data.headers|
  {
    var lines := SplitLines(text);
    var delim := DetectedDelimiter(lines[0]);
    var headers := LineFields(lines[0], delim);
    var rows := KeptRows(lines[1..], delim, |headers|);
    KeptRowsWidth(lines[1..], delim, |headers|);
    CsvData(headers, rows, delim)
  }

  /** An empty file has one empty header and no rows: the "Empty CSV file" error is never raised. */
  lemma EmptyTextHasOneEmptyHeader()
    ensures CsvOf("") == CsvData([""], [], ',')
  {
    assert SplitLines("") == [""];
    assert Scan("", ',', [], false) == [""];
    assert Count("", ';') == 0 && Count("", '\t') == 0 && Count("", '|') == 0 && Count("", ',') == 0;
    assert LineFields("", ',') == [""];
  }

  // ------------------------------------------------------------ the parser object

  class CSVParser {
    var delimiter: char

    constructor ()
      ensures delimiter == ','
    {
      delimiter := ',';
    }

    /** Picks the delimiter from the header line. */
    method DetectDelimiter(firstLine: string)
      modifies this
      ensures delimiter == DetectedDelimiter(firstLine)
    {
      var maxCount := 0;
      var best := ',';
      var k := 0;
      while k < |Candidates|
        invariant 0 <= k <= |Candidates|
        invariant PickFrom(firstLine, k, best, maxCount) == PickFrom(firstLine, 0, ',', 0)
      {
        var count := Count(firstLine, Candidates[k]);
        if count > maxCount {
          maxCount := count;
          best := Candidates[k];
        }
        k := k + 1;
      }
      delimiter := best;
    }

    /** Splits one line into fields with the current delimiter. */
    method ParseLine(line: string) returns (fields: seq<string>)
      ensures fields == LineFields(line, delimiter)
    {
      var result: seq<string> := [];
      ghost var raw: seq<string> := [];
      var current: string := [];
      var inQuotes := false;
      var i := 0;
      ghost var all := Scan(line, delimiter, [], false);
      while i < |line|
        invariant 0 <= i <= |line|
        invariant result == TrimAll(raw)
        invariant raw + Scan(line[i..], delimiter, current, inQuotes) == all
      {
        var c := line[i];
        ghost var rest := line[i..];
        assert rest[0] == c && rest[1..] == line[i + 1..];
        if c == Quote {
          if inQuotes && i + 1 < |line| && line[i + 1] == Quote {
            assert rest[2..] == line[i + 2..];
            assert Scan(rest, delimiter, current, inQuotes) == Scan(line[i + 2..], delimiter, current + [Quote], inQuotes);
            current := current + [Quote];
            i := i + 2;
          } else {
            assert Scan(rest, delimiter, current, inQuotes) == Scan(line[i + 1..], delimiter, current, !inQuotes);
            inQuotes := !inQuotes;
            i := i + 1;
          }
        } else if c == delimiter && !inQuotes {
          assert Scan(rest, delimiter, current, inQuotes) == [current] + Scan(line[i + 1..], delimiter, [], false);
          assert raw + ([current] + Scan(line[i + 1..], delimiter, [], false))
              == (raw + [current]) + Scan(line[i + 1..], delimiter, [], false);
          TrimAllSnoc(raw, current);
          result := result + [Trim(current)];
          raw := raw + [current];
          current := [];
          i := i + 1;
        } else {
          assert Scan(rest, delimiter, current, inQuotes) == Scan(line[i + 1..], delimiter, current + [c], inQuotes);
          current := current + [c];
          i := i + 1;
        }
      }
      assert line[i..] == [];
      TrimAllSnoc(raw, current);
      result := result + [Trim(current)];
      raw := raw + [current];
      assert raw == all;
      fields := UnquoteAll(result);
    }

    /** The data-line loop of parseCSV: blank lines and lines of the wrong width are skipped. */
    method ParseRows(lines: seq<string>, width: nat) returns (rows: seq<seq<string>>)
      ensures rows == KeptRows(lines, delimiter, width)
    {
      rows := [];
      var i := 0;
      while i < |lines|
        invariant 0 <= i <= |lines|
        invariant rows + KeptRows(lines[i..], delimiter, width) == KeptRows(lines, delimiter, width)
      {
        KeptRowsStep(lines, i, delimiter, width, rows);
        var line := Trim(lines[i]);
        if line != [] {
          var row := ParseLine(line);
          if |row| == width {
            rows := rows + [row];
          }
        }
        i := i + 1;
      }
      assert lines[i..] == [];
    }

    /** parseCSV: header from the first line, then every kept data line. */
    method ParseCsv(text: string) returns (r: Result<CsvData, string>)
      modifies this
      ensures r == Ok(CsvOf(text))
      ensures delimiter == CsvOf(text).delimiter
    {
      var lines := SplitLines(text);
      if |lines| == 0 {
        return Err("Empty CSV file");
      }
      DetectDelimiter(lines[0]);
      var headers := ParseLine(lines[0]);
      var rows := ParseRows(lines[1..], |headers|);
      r := Ok(CsvData(headers, rows, delimiter));
    }
  }

  // ------------------------------------------------------------ cleaners

  /** `[$€£¥,\s]`: what cleanAmount deletes before reading the number. */
  const AmountNoise: set<char> :=
    {'$', '€', '£', '¥', ',', ' ', '\t', '\n', '\r', '\U{B}', '\U{C}', '\U{A0}', '\U{FEFF}', '\U{2028}', '\U{2029}'}

  lemma AmountNoiseIsCurrencyCommaSpace(c: char)
    ensures c in AmountNoise <==> c in {'$', '€', '£', '¥', ','} || IsSpace(c)
  {
  }

  /**
   * cleanAmount's text before parseFloat; None when the input is missing or
   * empty (cleanAmount then returns 0).
   */
  function CleanAmountText(amount: Option<string>): Option<string>
  {
    if amount.None? || amount.value == [] then None
    else Some(Amounts.AmountText(amount.value, AmountNoise))
  }

  /**
   * Currency symbols, commas and whitespace are gone from the cleaned text, so
   * the decimal-comma branches of cleanAmount can never fire; accounting
   * parentheses become one leading minus; otherwise no minus is invented.
   */
  lemma CleanAmountTextSpec(amount: Option<string>)
    ensures CleanAmountText(amount).None? <==> amount.None? || amount.value == []
    ensures CleanAmountText(amount).Some? ==> var t := CleanAmountText(amount).value;
      (forall i :: 0 <= i < |t| ==> t[i] !in AmountNoise) && !HasChar(t, ',')
    ensures CleanAmountText(amount).Some? && HasChar(amount.value, '(') && HasChar(amount.value, ')') ==>
      var t := CleanAmountText(amount).value;
      |t| >= 1 && t[0] == '-' && !HasChar(t, '(') && !HasChar(t, ')')
    ensures CleanAmountText(amount).Some? && !(HasChar(amount.value, '(') && HasChar(amount.value, ')')) ==>
      (HasChar(CleanAmountText(amount).value, '-') ==> HasChar(amount.value, '-'))
  {
    if amount.Some? && amount.value != [] {
      Amounts.AmountTextSpec(amount.value, AmountNoise);
    }
  }

  /** cleanAmount: the parsed number, or 0 for missing input or a NaN parse. */
  function CleanAmount(amount: Option<string>, parseFloat: string -> Option<real>): (r: real)
    ensures (amount.None? || amount == Some([])) ==> r == 0.0
  {
    match CleanAmountText(amount)
    case None => 0.0
    case Some(t) => parseFloat(t).GetOr(0.0)
  }

  predicate IsWordChar(c: char)
  {
    'a' <= c <= 'z' || 'A' <= c <= 'Z' || '0' <= c <= '9' || c == '_'
  }

  /** The characters cleanDescription keeps: `[\w\s\-.,()]`. */
  predicate DescriptionChar(c: char)
  {
    IsWordChar(c) || IsSpace(c) || c in {'-', '.', ',', '(', ')'}
  }

  /** Replaces every run of whitespace with one space (`replace(/\s+/g, " ")`). */
  function CollapseSpaces(s: string): string
  {
    if s == [] then []
    else if IsSpace(s[0]) then [' '] + CollapseSpaces(TrimStart(s))
    else [s[0]] + CollapseSpaces(s[1..])
  }

  /** After collapsing, no two whitespace characters are adjacent and every whitespace is a plain space. */
  lemma {:induction false} CollapseSpacesSpec(s: string)
    ensures |CollapseSpaces(s)| <= |s|
    ensures forall i :: 0 <= i < |CollapseSpaces(s)| ==> IsSpace(CollapseSpaces(s)[i]) ==> CollapseSpaces(s)[i] == ' '
    ensures forall i :: 0 <= i < |CollapseSpaces(s)| - 1 ==> !(IsSpace(CollapseSpaces(s)[i]) && IsSpace(CollapseSpaces(s)[i + 1]))
    ensures CollapseSpaces(s) != [] && s != [] ==> (IsSpace(CollapseSpaces(s)[0]) <==> IsSpace(s[0]))
    decreases |s|
  {
    if s != [] {
      if IsSpace(s[0]) {
        var t := TrimStart(s);
        CollapseSpacesSpec(t);
        var r := CollapseSpaces(t);
        assert r != [] ==> !IsSpace(r[0]) by {
          if r != [] { assert !IsSpace(t[0]); }
        }
        assert forall i :: 1 <= i < |CollapseSpaces(s)| ==> CollapseSpaces(s)[i] == r[i - 1];
      } else {
        CollapseSpacesSpec(s[1..]);
        var r := CollapseSpaces(s[1..]);
        assert forall i :: 1 <= i < |CollapseSpaces(s)| ==> CollapseSpaces(s)[i] == r[i - 1];
      }
    }
  }

  function KeepDescriptionChars(s: string): string
  {
    if s == [] then []
    else if DescriptionChar(s[0]) then [s[0]] + KeepDescriptionChars(s[1..])
    else KeepDescriptionChars(s[1..])
  }

  lemma {:induction false} KeepDescriptionCharsSpec(s: string)
    ensures |KeepDescriptionChars(s)| <= |s|
    ensures forall i :: 0 <= i < |KeepDescriptionChars(s)| ==> DescriptionChar(KeepDescriptionChars(s)[i])
    ensures (forall i :: 0 <= i < |s| ==> DescriptionChar(s[i])) ==> KeepDescriptionChars(s) == s
  {
    if s != [] {
      KeepDescriptionCharsSpec(s[1..]);
      if DescriptionChar(s[0]) {
        assert forall i :: 1 <= i < |KeepDescriptionChars(s)| ==> KeepDescriptionChars(s)[i] == KeepDescriptionChars(s[1..])[i - 1];
      }
    }
  }

  /** Keeping the allowed characters works piece by piece: nothing is lost or reordered. */
  lemma {:induction false} KeepDescriptionCharsConcat(a: string, b: string)
    ensures KeepDescriptionChars(a + b) == KeepDescriptionChars(a) + KeepDescriptionChars(b)
  {
    if a == [] {
      assert a + b == b;
    } else {
      assert (a + b)[1..] == a[1..] + b;
      KeepDescriptionCharsConcat(a[1..], b);
    }
  }

  /** One character is kept exactly when it is allowed. */
  lemma KeepDescriptionChar(c: char)
    ensures DescriptionChar(c) ==> KeepDescriptionChars([c]) == [c]
    ensures !DescriptionChar(c) ==> KeepDescriptionChars([c]) == []
  {
    assert [c][1..] == [];
  }

  /** The allowed characters of a description other than whitespace, in order. */
  function Ink(s: string): string
  {
    if s == [] then []
    else (if DescriptionChar(s[0]) && !IsSpace(s[0]) then [s[0]] else []) + Ink(s[1..])
  }

  lemma {:induction false} InkConcat(a: string, b: string)
    ensures Ink(a + b) == Ink(a) + Ink(b)
  {
    if a == [] {
      assert a + b == b;
    } else {
      assert (a + b)[1..] == a[1..] + b;
      InkConcat(a[1..], b);
    }
  }

  lemma {:induction false} InkOfSpaces(s: string)
    requires forall i :: 0 <= i < |s| ==> IsSpace(s[i])
    ensures Ink(s) == []
  {
    if s != [] {
      InkOfSpaces(s[1..]);
    }
  }

  /** Trimming only drops whitespace, so the allowed characters that are not whitespace stay. */
  lemma InkTrimStart(s: string)
    ensures Ink(TrimStart(s)) == Ink(s)
  {
    var a := TrimStart(s);
    var cut := s[..|s| - |a|];
    assert s == cut + a;
    InkOfSpaces(cut);
    InkConcat(cut, a);
  }

  lemma InkTrimEnd(s: string)
    ensures Ink(TrimEnd(s)) == Ink(s)
  {
    var e := TrimEnd(s);
    var cut := s[|e|..];
    assert s == e + cut;
    InkOfSpaces(cut);
    InkConcat(e, cut);
  }

  lemma {:induction false} InkCollapse(s: string)
    ensures Ink(CollapseSpaces(s)) == Ink(s)
    decreases |s|
  {
    if s != [] {
      if IsSpace(s[0]) {
        var t := TrimStart(s);
        InkCollapse(t);
        InkTrimStart(s);
        InkConcat([' '], CollapseSpaces(t));
        assert Ink([' ']) == [] by { InkOfSpaces([' ']); }
      } else {
        InkCollapse(s[1..]);
        InkConcat([s[0]], CollapseSpaces(s[1..]));
        assert [s[0]][1..] == [];
      }
    }
  }

  lemma {:induction false} InkKeep(s: string)
    ensures Ink(KeepDescriptionChars(s)) == Ink(s)
  {
    if s != [] {
      InkKeep(s[1..]);
      if DescriptionChar(s[0]) {
        InkConcat([s[0]], KeepDescriptionChars(s[1..]));
        assert [s[0]][1..] == [];
      }
    }
  }

  /** cleanDescription: missing or empty input becomes "Unknown Transaction". */
  function CleanDescription(description: Option<string>): string
  {
    if description.None? || description.value == [] then "Unknown Transaction"
    else KeepDescriptionChars(CollapseSpaces(Trim(description.value)))
  }

  /**
   * Only word characters, whitespace and `-.,()` survive, the result is never
   * longer than the input, and a description that is already clean (trimmed,
   * single-spaced, allowed characters only) comes back unchanged.
   */
  lemma CleanDescriptionSpec(description: Option<string>)
    ensures var r := CleanDescription(description);
      forall i :: 0 <= i < |r| ==> DescriptionChar(r[i])
    ensures description.None? || description.value == [] ==> CleanDescription(description) == "Unknown Transaction"
    ensures description.Some? && description.value != [] ==> |CleanDescription(description)| <= |description.value|
    ensures description.Some? && description.value != [] ==> Ink(CleanDescription(description)) == Ink(description.value)
  {
    if description.None? || description.value == [] {
      var u := "Unknown Transaction";
      assert forall i :: 0 <= i < |u| ==> DescriptionChar(u[i]);
    } else {
      var t := Trim(description.value);
      CollapseSpacesSpec(t);
      KeepDescriptionCharsSpec(CollapseSpaces(t));
      InkTrimStart(description.value);
      InkTrimEnd(TrimStart(description.value));
      InkCollapse(t);
      InkKeep(CollapseSpaces(t));
    }
  }

  /** Whitespace is single plain spaces, never two side by side. */
  predicate SingleSpaced(s: string)
  {
    forall i :: 0 <= i < |s| && IsSpace(s[i]) ==> s[i] == ' ' && (i + 1 < |s| ==> !IsSpace(s[i + 1]))
  }

  lemma {:induction false} CollapseSpacesNoop(s: string)
    requires SingleSpaced(s)
    ensures CollapseSpaces(s) == s
    decreases |s|
  {
    if s != [] {
      assert SingleSpaced(s[1..]) by {
        forall i | 0 <= i < |s[1..]| && IsSpace(s[1..][i])
          ensures s[1..][i] == ' ' && (i + 1 < |s[1..]| ==> !IsSpace(s[1..][i + 1]))
        {
          assert s[1..][i] == s[i + 1];
          if i + 1 < |s[1..]| { assert s[1..][i + 1] == s[i + 2]; }
        }
      }
      CollapseSpacesNoop(s[1..]);
      if IsSpace(s[0]) {
        assert TrimStart(s) == TrimStart(s[1..]);
        if |s| > 1 { assert !IsSpace(s[1]); assert s[1..][0] == s[1]; }
        assert TrimStart(s[1..]) == s[1..];
        assert [' '] + s[1..] == s;
      } else {
        assert [s[0]] + s[1..] == s;
      }
    }
  }

  /** A description that is already clean comes back unchanged. */
  lemma CleanDescriptionOfCleanText(s: string)
    requires s != [] && NoEdgeSpace(s) && SingleSpaced(s)
    requires forall i :: 0 <= i < |s| ==> DescriptionChar(s[i])
    ensures CleanDescription(Some(s)) == s
  {
    TrimOfTrimmed(s);
    CollapseSpacesNoop(s);
    KeepDescriptionCharsSpec(s);
  }
}
