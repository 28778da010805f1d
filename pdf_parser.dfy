/**
 * The bank-statement reader for PDF files (class PDFParser): the chain of
 * statement formats tried in turn, the Wells Fargo pattern loop, date
 * conversion with its two-digit-year pivot, amount reading with
 * parentheses and CR/DR markers, table-row splitting, and the quality
 * score of a parse. The regular expressions that find candidate matches in
 * the text are not part of this model: their matches are inputs.
 */
module PdfParser {
  import opened Wrappers
  import opened Text
  import opened ImportRules
  import Amounts
  import CsvParser

  /** One transaction read from a statement. */
  datatype Statement = Statement(date: string, description: string, amount: real)

  // ------------------------------------------------------------ the fallback chain

  /** A statement parser that threw (None) or found nothing. */
  predicate Failed(result: Option<seq<Statement>>)
  {
    result.None? || result.value == []
  }

  /**
   * parseTransactions: the Chase, Bank of America, Wells Fargo and generic
   * parsers are tried in that order; the first non-empty result is
   * returned, and when every parser throws or finds nothing the statement
   * format is rejected.
   */
  method ParseTransactions(text: string, chase: string -> Option<seq<Statement>>, bofa: string -> Option<seq<Statement>>,
                           wells: string -> Option<seq<Statement>>, generic: string -> Option<seq<Statement>>)
    returns (r: Result<seq<Statement>, string>)
    ensures var results := [chase(text), bofa(text), wells(text), generic(text)];
      (r.Ok? ==> r.value != [] && exists i :: (0 <= i < 4 && results[i] == Some(r.value)
        && forall j :: 0 <= j < i ==> Failed(results[j])))
      && (r.Err? <==> forall j :: 0 <= j < 4 ==> Failed(results[j]))
      && (r.Err? ==> r.error == "Unable to parse PDF statement format")
  {
    var parsers := [chase, bofa, wells, generic];
    ghost var results := [chase(text), bofa(text), wells(text), generic(text)];
    for i := 0 to 4
      invariant forall j :: 0 <= j < i ==> Failed(results[j])
    {
      var result := parsers[i](text);
      assert result == results[i];
      if result.Some? && |result.value| > 0 {
        return Ok(result.value);
      }
    }
    r := Err("Unable to parse PDF statement format");
  }

  // ------------------------------------------------------------ amounts

  /** `[$€£¥,\s]`: the same class cleanAmount deletes. */
  const PdfAmountNoise: set<char> := CsvParser.AmountNoise

  /** The CR/DR step: a credit marker is dropped (first occurrence), otherwise a debit marker is dropped and the value negated. */
  function Markers(t: string): string
  {
    if Contains(t, "CR") then ReplaceFirst(t, "CR", "")
    else if Contains(t, "DR") then "-" + ReplaceFirst(t, "DR", "")
    else t
  }

  /** The string parseAmount hands to parseFloat. */
  function PdfAmountText(s: string): string
  {
    Markers(Amounts.AmountText(s, PdfAmountNoise))
  }

  /** parseAmount: missing or empty input and a NaN parse both throw (None). */
  function ParseAmount(amount: Option<string>, parseFloat: string -> Option<real>): (r: Option<real>)
    ensures Present(amount).None? ==> r.None?
  {
    match Present(amount)
    case None => None
    case Some(s) => parseFloat(PdfAmountText(s))
  }

  /** Removing a marker deletes its first occurrence and nothing else. */
  lemma ReplaceFirstRemoves(t: string, pat: string)
    requires Contains(t, pat)
    ensures exists k: nat :: (OccursAt(t, pat, k) && (forall j: nat :: j < k ==> !OccursAt(t, pat, j))
      && ReplaceFirst(t, pat, "") == t[..k] + t[k + |pat|..])
  {
    var k := FindFirst(t, pat).value;
    assert ReplaceFirst(t, pat, "") == t[..k] + "" + t[k + |pat|..];
    assert t[..k] + "" + t[k + |pat|..] == t[..k] + t[k + |pat|..];
  }

  /**
   * The marker step in general: with a CR marker the first "CR" is cut out
   * and the sign is untouched (even when a DR is present too); otherwise a
   * DR marker is cut out and a minus sign prefixed; without markers the
   * text is unchanged.
   */
  lemma MarkersSpec(t: string)
    ensures Contains(t, "CR") ==> exists k: nat :: OccursAt(t, "CR", k) && Markers(t) == t[..k] + t[k + 2..]
    ensures !Contains(t, "CR") && Contains(t, "DR") ==>
      exists k: nat :: OccursAt(t, "DR", k) && Markers(t) == "-" + t[..k] + t[k + 2..]
    ensures !Contains(t, "CR") && !Contains(t, "DR") ==> Markers(t) == t
  {
    if Contains(t, "CR") {
      ReplaceFirstRemoves(t, "CR");
    } else if Contains(t, "DR") {
      ReplaceFirstRemoves(t, "DR");
      var k: nat :| OccursAt(t, "DR", k) && ReplaceFirst(t, "DR", "") == t[..k] + t[k + 2..];
      assert "-" + (t[..k] + t[k + 2..]) == "-" + t[..k] + t[k + 2..];
    }
  }

  /** The characters a plain figure is made of. */
  predicate Figure(d: string)
  {
    forall i :: 0 <= i < |d| ==> IsDigit(d[i]) || d[i] == '.'
  }

  lemma FigureIsClean(d: string)
    requires Figure(d)
    ensures Amounts.AmountText(d, PdfAmountNoise) == d
    ensures !Contains(d, "CR") && !Contains(d, "DR")
  {
    RemoveCharsNoop(d, PdfAmountNoise);
    assert !HasChar(d, '(');
    forall i: nat | i <= |d| ensures !OccursAt(d, "CR", i) && !OccursAt(d, "DR", i) {
      if i + 2 <= |d| {
        assert d[i..i + 2][0] == d[i];
      }
    }
  }

  /** The first "CR" or "DR" in `d + marker` is the marker itself. */
  lemma MarkerAtEnd(d: string, marker: string)
    requires Figure(d) && (marker == "CR" || marker == "DR")
    ensures Contains(d + marker, marker) && FindFirst(d + marker, marker) == Some(|d|)
    ensures !Contains(d + "DR", "CR")
  {
    var s := d + marker;
    assert s[|d|..|d| + 2] == marker;
    assert OccursAt(s, marker, |d|);
    forall j: nat | j < |d| ensures !OccursAt(s, marker, j) {
      assert s[j] == d[j];
      if j + 2 <= |s| {
        assert s[j..j + 2][0] == s[j];
      }
    }
    forall i: nat | i <= |d + "DR"| ensures !OccursAt(d + "DR", "CR", i) {
      if i + 2 <= |d + "DR"| {
        assert (d + "DR")[i..i + 2][0] == (d + "DR")[i];
        if i < |d| {
          assert (d + "DR")[i] == d[i];
        }
      }
    }
  }

  /** A figure followed by CR reads as itself: the credit marker does not change the sign. */
  lemma CreditFigure(d: string)
    requires Figure(d)
    ensures PdfAmountText(d + "CR") == d
  {
    var s := d + "CR";
    RemoveCharsNoop(s, PdfAmountNoise);
    HasCharConcat(d, "CR", '(');
    assert !HasChar(d, '(');
    assert Amounts.AmountText(s, PdfAmountNoise) == s;
    MarkerAtEnd(d, "CR");
    assert s[..|d|] == d && s[|d| + 2..] == [];
  }

  /** A figure followed by DR reads as its negation. */
  lemma DebitFigure(d: string)
    requires Figure(d)
    ensures PdfAmountText(d + "DR") == "-" + d
  {
    var s := d + "DR";
    RemoveCharsNoop(s, PdfAmountNoise);
    HasCharConcat(d, "DR", '(');
    assert !HasChar(d, '(');
    assert Amounts.AmountText(s, PdfAmountNoise) == s;
    MarkerAtEnd(d, "DR");
    assert s[..|d|] == d && s[|d| + 2..] == [];
  }

  /** A figure in parentheses reads as its negation. */
  lemma BracketedFigure(d: string)
    requires Figure(d)
    ensures PdfAmountText("(" + d + ")") == "-" + d
  {
    FigureIsClean(d);
    var p := "(" + d + ")";
    RemoveCharsNoop(p, PdfAmountNoise);
    assert p[0] == '(' && p[|p| - 1] == ')';
    RemoveCharsConcat("(" + d, ")", {'(', ')'});
    RemoveCharsConcat("(", d, {'(', ')'});
    RemoveCharsNoop(d, {'(', ')'});
    assert Amounts.AmountText(p, PdfAmountNoise) == "-" + d;
    forall i: nat | i <= |"-" + d| ensures !OccursAt("-" + d, "CR", i) && !OccursAt("-" + d, "DR", i) {
      if i + 2 <= |"-" + d| {
        assert ("-" + d)[i..i + 2][1] == ("-" + d)[i + 1] == d[i];
      }
    }
  }

  /** A leading dollar sign is dropped. */
  lemma DollarFigure(d: string)
    requires Figure(d)
    ensures PdfAmountText("$" + d) == d
  {
    FigureIsClean(d);
    RemoveCharsConcat("$", d, PdfAmountNoise);
    assert RemoveChars("$", PdfAmountNoise) == [];
    assert RemoveChars("$" + d, PdfAmountNoise) == d;
  }

  // ------------------------------------------------------------ dates

  /** The format argument of convertDate. */
  datatype DateFormat = AutoFormat | ShortYear | LongYear

  /** Two-digit years: below 50 in the 2000s, otherwise in the 1900s. */
  function Pivot(y: int): int
  {
    if y < 50 then 2000 + y else 1900 + y
  }

  lemma PivotSpec(y: int)
    requires 0 <= y < 100
    ensures y < 50 ==> 2000 <= Pivot(y) <= 2049
    ensures y >= 50 ==> 1950 <= Pivot(y) <= 1999
    ensures Pivot(y) % 100 == y
  {
  }

  /** `Number.parseInt(parts[k])`; a missing part is undefined and reads as NaN (None). */
  function PartAt(parts: seq<string>, k: nat, parseInt: string -> Option<int>): Option<int>
  {
    if k < |parts| then parseInt(parts[k]) else None
  }

  /** What the date code needs of `Number.parseInt`: a run of decimal digits reads as its value. */
  ghost predicate ReadsDigits(parseInt: string -> Option<int>)
  {
    forall t :: AllDigits(t) && t != [] ==> parseInt(t) == Some(DigitsValue(t))
  }

  /** `new Date(year, month - 1, day)` from month/day/year parts; a NaN part makes an invalid Date (None). */
  function PartsRequest(parts: seq<string>, shortYear: bool, parseInt: string -> Option<int>): Option<DateRequest>
  {
    var month := PartAt(parts, 0, parseInt);
    var day := PartAt(parts, 1, parseInt);
    var year := PartAt(parts, 2, parseInt);
    if month.None? || day.None? || year.None? then None
    else Some(FromParts(if shortYear then Pivot(year.value) else year.value, month.value - 1, day.value))
  }

  /** The Date a request builds, or None when the request already threw. */
  function Built(request: Option<DateRequest>, build: DateRequest -> Option<string>): Option<string>
  {
    match request
    case None => None
    case Some(r) => build(r)
  }

  /**
   * convertDate; `build` stands for the Date constructor, the validity check
   * and `toISOString().split("T")[0]`. In auto mode a slash re-enters with
   * MM/DD/YY when the third part has two characters and with MM/DD/YYYY
   * otherwise (a slash with fewer than three parts throws on `parts[2]`); a
   * dash reads a four-character first part as an ISO date and anything else
   * as MM-DD-YYYY; other text goes to the Date parser.
   */
  function ConvertDate(date: Option<string>, format: DateFormat, build: DateRequest -> Option<string>, parseInt: string -> Option<int>): (r: Option<string>)
    ensures Present(date).None? ==> r.None?
    decreases if format.AutoFormat? then 1 else 0
  {
    match Present(date)
    case None => None
    case Some(s) =>
      match format
      case ShortYear => Built(PartsRequest(Split(s, '/'), true, parseInt), build)
      case LongYear => Built(PartsRequest(Split(s, '/'), false, parseInt), build)
      case AutoFormat =>
        if HasChar(s, '/') then
          var parts := Split(s, '/');
          if |parts| < 3 then None
          else if |parts[2]| == 2 then ConvertDate(date, ShortYear, build, parseInt)
          else ConvertDate(date, LongYear, build, parseInt)
        else if HasChar(s, '-') then
          var parts := Split(s, '-');
          if |parts[0]| == 4 then build(FromText(s)) else Built(PartsRequest(parts, false, parseInt), build)
        else build(FromText(s))
  }

  lemma {:induction false} DigitRunOfDigits(s: string)
    requires AllDigits(s)
    ensures DigitRun(s) == |s|
  {
    if s != [] {
      DigitRunOfDigits(s[1..]);
    }
  }

  /** parseInt reads a string of digits as its decimal value. */
  lemma LeadingIntOfDigits(s: string)
    requires AllDigits(s) && s != []
    ensures LeadingInt(s) == Some(DigitsValue(s))
  {
    assert !IsSpace(s[0]);
    assert TrimStart(s) == s;
    assert SignFree(s) == s;
    DigitRunOfDigits(s);
    assert s[..|s|] == s;
  }

  /** Splitting three separator-free parts joined by a separator gives the parts back. */
  lemma SplitThree(a: string, b: string, c: string, d: char)
    requires !HasChar(a, d) && !HasChar(b, d) && !HasChar(c, d)
    ensures Split(a + [d] + b + [d] + c, d) == [a, b, c]
  {
    JoinThree(a, b, c, d);
    SplitJoin([a, b, c], d);
  }

  /** Three non-empty digit runs. */
  predicate DigitTriple(parts: seq<string>)
  {
    |parts| == 3 && forall k :: 0 <= k < 3 ==> AllDigits(parts[k]) && parts[k] != []
  }

  /** Number.parseInt (modelled by LeadingInt) reads every digit run as its value. */
  lemma LeadingIntReadsDigits()
    ensures ReadsDigits(LeadingInt)
  {
    forall t | AllDigits(t) && t != [] {
      LeadingIntOfDigits(t);
    }
  }

  /** Three digit strings read as a month, a day and a year. */
  lemma DigitParts(parts: seq<string>, shortYear: bool, parseInt: string -> Option<int>)
    requires DigitTriple(parts) && ReadsDigits(parseInt)
    ensures PartsRequest(parts, shortYear, parseInt) == Some(FromParts(
      if shortYear then Pivot(DigitsValue(parts[2])) else DigitsValue(parts[2]), DigitsValue(parts[0]) - 1, DigitsValue(parts[1])))
  {
  }

  /** The parts of a date written with one separator. */
  lemma SeparatedParts(a: string, b: string, c: string, sep: char)
    requires AllDigits(a) && AllDigits(b) && AllDigits(c) && !IsDigit(sep)
    ensures Split(a + [sep] + b + [sep] + c, sep) == [a, b, c]
    ensures HasChar(a + [sep] + b + [sep] + c, sep)
  {
    NoSeparatorInDigits(a, sep);
    NoSeparatorInDigits(b, sep);
    NoSeparatorInDigits(c, sep);
    SplitThree(a, b, c, sep);
    assert (a + [sep] + b + [sep] + c)[|a|] == sep;
  }

  /** A dash date has no slash. */
  lemma NoSlash(a: string, b: string, c: string)
    requires AllDigits(a) && AllDigits(b) && AllDigits(c)
    ensures !HasChar(a + "-" + b + "-" + c, '/')
  {
    NoSeparatorInDigits(a, '/');
    NoSeparatorInDigits(b, '/');
    NoSeparatorInDigits(c, '/');
    HasCharConcat(a, "-", '/');
    HasCharConcat(a + "-", b, '/');
    HasCharConcat(a + "-" + b, "-", '/');
    HasCharConcat(a + "-" + b + "-", c, '/');
  }

  /** A slash date in auto mode whose third part has two characters is read as MM/DD/YY. */
  lemma AutoShortYear(s: string, build: DateRequest -> Option<string>, parseInt: string -> Option<int>)
    requires s != [] && HasChar(s, '/') && |Split(s, '/')| >= 3 && |Split(s, '/')[2]| == 2
    ensures ConvertDate(Some(s), AutoFormat, build, parseInt) == ConvertDate(Some(s), ShortYear, build, parseInt)
  {
  }

  /** A slash date in auto mode whose third part has any other length is read as MM/DD/YYYY. */
  lemma AutoLongYear(s: string, build: DateRequest -> Option<string>, parseInt: string -> Option<int>)
    requires s != [] && HasChar(s, '/') && |Split(s, '/')| >= 3 && |Split(s, '/')[2]| != 2
    ensures ConvertDate(Some(s), AutoFormat, build, parseInt) == ConvertDate(Some(s), LongYear, build, parseInt)
  {
  }

  /** A slash date read with an explicit format builds the Date its parts give. */
  lemma SlashVia(s: string, shortYear: bool, request: DateRequest, build: DateRequest -> Option<string>, parseInt: string -> Option<int>)
    requires s != [] && PartsRequest(Split(s, '/'), shortYear, parseInt) == Some(request)
    ensures ConvertDate(Some(s), if shortYear then ShortYear else LongYear, build, parseInt) == build(request)
  {
  }

  /** A slash date of three parts in auto mode whose third part has two characters builds the Date its parts give with the year pivoted. */
  lemma AutoShortVia(s: string, parts: seq<string>, request: DateRequest, build: DateRequest -> Option<string>, parseInt: string -> Option<int>)
    requires s != [] && HasChar(s, '/') && Split(s, '/') == parts && |parts| == 3 && |parts[2]| == 2
    requires PartsRequest(parts, true, parseInt) == Some(request)
    ensures ConvertDate(Some(s), AutoFormat, build, parseInt) == build(request)
  {
    AutoShortYear(s, build, parseInt);
    SlashVia(s, true, request, build, parseInt);
  }

  /** A slash date of three parts in auto mode whose third part has any other length builds the Date its parts give. */
  lemma AutoLongVia(s: string, parts: seq<string>, request: DateRequest, build: DateRequest -> Option<string>, parseInt: string -> Option<int>)
    requires s != [] && HasChar(s, '/') && Split(s, '/') == parts && |parts| == 3 && |parts[2]| != 2
    requires PartsRequest(parts, false, parseInt) == Some(request)
    ensures ConvertDate(Some(s), AutoFormat, build, parseInt) == build(request)
  {
    AutoLongYear(s, build, parseInt);
    SlashVia(s, false, request, build, parseInt);
  }

  /** Three digit runs joined by a separator that is not a digit split back into themselves. */
  lemma JoinedParts(parts: seq<string>, sep: char)
    requires DigitTriple(parts) && !IsDigit(sep)
    ensures Split(Join(parts, [sep]), sep) == parts && HasChar(Join(parts, [sep]), sep)
  {
    SeparatedParts(parts[0], parts[1], parts[2], sep);
    JoinThree(parts[0], parts[1], parts[2], sep);
    assert parts == [parts[0], parts[1], parts[2]];
  }

  /** A two-digit year after a slash is pivoted: "01/15/24" is 15 January 2024 and "12/31/99" is 31 December 1999. */
  lemma ShortSlashDate(parts: seq<string>, build: DateRequest -> Option<string>, parseInt: string -> Option<int>)
    requires DigitTriple(parts) && |parts[0]| <= 2 && |parts[1]| <= 2 && |parts[2]| == 2 && ReadsDigits(parseInt)
    ensures ConvertDate(Some(Join(parts, "/")), AutoFormat, build, parseInt)
         == build(FromParts(Pivot(DigitsValue(parts[2])), DigitsValue(parts[0]) - 1, DigitsValue(parts[1])))
  {
    JoinedParts(parts, '/');
    DigitParts(parts, true, parseInt);
    AutoShortVia(Join(parts, "/"), parts, FromParts(Pivot(DigitsValue(parts[2])), DigitsValue(parts[0]) - 1, DigitsValue(parts[1])), build, parseInt);
  }

  /** A year of any other length after a slash is taken as written. */
  lemma LongSlashDate(parts: seq<string>, build: DateRequest -> Option<string>, parseInt: string -> Option<int>)
    requires DigitTriple(parts) && |parts[0]| <= 2 && |parts[1]| <= 2 && |parts[2]| != 2 && ReadsDigits(parseInt)
    ensures ConvertDate(Some(Join(parts, "/")), AutoFormat, build, parseInt)
         == build(FromParts(DigitsValue(parts[2]), DigitsValue(parts[0]) - 1, DigitsValue(parts[1])))
  {
    JoinedParts(parts, '/');
    DigitParts(parts, false, parseInt);
    AutoLongVia(Join(parts, "/"), parts, FromParts(DigitsValue(parts[2]), DigitsValue(parts[0]) - 1, DigitsValue(parts[1])), build, parseInt);
  }

  /** A dash date with a four-character first part goes to the Date parser unchanged. */
  lemma IsoDashDate(y: string, m: string, d: string, build: DateRequest -> Option<string>, parseInt: string -> Option<int>)
    requires DigitsOfLength(y, 4, 4) && AllDigits(m) && AllDigits(d)
    ensures ConvertDate(Some(y + "-" + m + "-" + d), AutoFormat, build, parseInt) == build(FromText(y + "-" + m + "-" + d))
  {
    NoSlash(y, m, d);
    SeparatedParts(y, m, d, '-');
  }

  /** A dash date in auto mode whose first part is not four characters long is read as MM-DD-YYYY. */
  lemma DashVia(s: string, request: DateRequest, build: DateRequest -> Option<string>, parseInt: string -> Option<int>)
    requires s != [] && !HasChar(s, '/') && HasChar(s, '-') && |Split(s, '-')[0]| != 4
    requires PartsRequest(Split(s, '-'), false, parseInt) == Some(request)
    ensures ConvertDate(Some(s), AutoFormat, build, parseInt) == build(request)
  {
  }

  /** Digit runs joined by dashes have no slash. */
  lemma DashJoinedNoSlash(parts: seq<string>)
    requires DigitTriple(parts)
    ensures !HasChar(Join(parts, "-"), '/')
  {
    JoinThree(parts[0], parts[1], parts[2], '-');
    NoSlash(parts[0], parts[1], parts[2]);
    assert parts == [parts[0], parts[1], parts[2]];
  }

  /** Any other dash date is read as month-day-year. */
  lemma DashDate(parts: seq<string>, build: DateRequest -> Option<string>, parseInt: string -> Option<int>)
    requires DigitTriple(parts) && |parts[0]| != 4 && ReadsDigits(parseInt)
    ensures ConvertDate(Some(Join(parts, "-")), AutoFormat, build, parseInt)
         == build(FromParts(DigitsValue(parts[2]), DigitsValue(parts[0]) - 1, DigitsValue(parts[1])))
  {
    JoinedParts(parts, '-');
    DashJoinedNoSlash(parts);
    DigitParts(parts, false, parseInt);
    DashVia(Join(parts, "-"), FromParts(DigitsValue(parts[2]), DigitsValue(parts[0]) - 1, DigitsValue(parts[1])), build, parseInt);
  }

  /** A slash date with fewer than three parts throws before any Date is built. */
  lemma ShortSlashTextThrows(a: string, b: string, build: DateRequest -> Option<string>, parseInt: string -> Option<int>)
    requires !HasChar(a, '/') && !HasChar(b, '/')
    ensures ConvertDate(Some(a + "/" + b), AutoFormat, build, parseInt) == None
  {
    var s := a + "/" + b;
    assert s[|a|] == '/';
    assert Join([a, b], "/") == s by {
      assert [a, b][1..] == [b];
    }
    SplitJoin([a, b], '/');
  }

  // ------------------------------------------------------------ the Wells Fargo pattern loop

  /** One regex match: the date, description and amount groups. */
  datatype Match = Match(date: string, description: string, amount: string)

  /** One match as a transaction; None where convertDate or parseAmount throws. */
  function Convert(m: Match, build: DateRequest -> Option<string>, parseInt: string -> Option<int>, parseFloat: string -> Option<real>): Option<Statement>
  {
    var date := ConvertDate(Some(m.date), LongYear, build, parseInt);
    var amount := ParseAmount(Some(m.amount), parseFloat);
    if date.None? || amount.None? then None
    else Some(Statement(date.value, Trim(m.description), amount.value))
  }

  /** The conversion the Wells Fargo parser applies to each match (dates as MM/DD/YYYY). */
  function WellsConverter(build: DateRequest -> Option<string>, parseInt: string -> Option<int>, parseFloat: string -> Option<real>): Match -> Option<Statement>
  {
    m => Convert(m, build, parseInt, parseFloat)
  }

  /** All matches of one pattern as transactions; a single throw aborts the whole parser (None). */
  function ConvertAll(ms: seq<Match>, convert: Match -> Option<Statement>): (r: Option<seq<Statement>>)
    ensures r.Some? ==> |r.value| == |ms|
  {
    if ms == [] then Some([])
    else
      var init := ConvertAll(ms[..|ms| - 1], convert);
      var last := convert(ms[|ms| - 1]);
      if init.None? || last.None? then None else Some(init.value + [last.value])
  }

  /** A conversion fails exactly when one of the matches fails; otherwise it converts each match in order. */
  lemma {:induction false} ConvertAllSpec(ms: seq<Match>, convert: Match -> Option<Statement>)
    ensures ConvertAll(ms, convert).None? <==> exists k :: 0 <= k < |ms| && convert(ms[k]).None?
    ensures ConvertAll(ms, convert).Some? ==>
      forall k :: 0 <= k < |ms| ==> convert(ms[k]) == Some(ConvertAll(ms, convert).value[k])
  {
    if ms != [] {
      var init := ms[..|ms| - 1];
      ConvertAllSpec(init, convert);
      assert forall k :: 0 <= k < |init| ==> init[k] == ms[k];
      if ConvertAll(init, convert).None? {
        var k :| 0 <= k < |init| && convert(init[k]).None?;
        assert convert(ms[k]).None?;
      }
    }
  }

  /** The first pattern with any match. */
  function FirstMatched(patterns: seq<seq<Match>>): (r: Option<nat>)
    ensures r.Some? ==> (r.value < |patterns| && patterns[r.value] != []
      && forall j :: 0 <= j < r.value ==> patterns[j] == [])
    ensures r.None? ==> forall j :: 0 <= j < |patterns| ==> patterns[j] == []
  {
    if patterns == [] then None
    else if patterns[0] != [] then Some(0)
    else
      var rest := FirstMatched(patterns[1..]);
      assert forall j :: 1 <= j < |patterns| ==> patterns[j] == patterns[1..][j - 1];
      if rest.None? then None else Some(rest.value + 1)
  }

  /**
   * parseWellsFargoStatement: the matches of each pattern are converted in
   * turn, and the loop stops after the first pattern that produced a
   * transaction, so only that pattern's matches are used; a conversion
   * that throws aborts the parser.
   */
  method ParseWellsFargo(patterns: seq<seq<Match>>, build: DateRequest -> Option<string>, parseInt: string -> Option<int>,
                         parseFloat: string -> Option<real>)
    returns (r: Option<seq<Statement>>)
    ensures FirstMatched(patterns).None? ==> r == Some([])
    ensures FirstMatched(patterns).Some? ==>
      r == ConvertAll(patterns[FirstMatched(patterns).value], WellsConverter(build, parseInt, parseFloat))
  {
    r := ConvertFirstMatched(patterns, WellsConverter(build, parseInt, parseFloat));
  }

  /** The pattern loop of parseWellsFargoStatement, for any conversion of a match. */
  method ConvertFirstMatched(patterns: seq<seq<Match>>, convert: Match -> Option<Statement>)
    returns (r: Option<seq<Statement>>)
    ensures FirstMatched(patterns).None? ==> r == Some([])
    ensures FirstMatched(patterns).Some? ==>
      r == ConvertAll(patterns[FirstMatched(patterns).value], convert)
  {
    var transactions: seq<Statement> := [];
    for p := 0 to |patterns|
      invariant transactions == []
      invariant forall j :: 0 <= j < p ==> patterns[j] == []
    {
      var ms := patterns[p];
      for k := 0 to |ms|
        invariant Some(transactions) == ConvertAll(ms[..k], convert)
      {
        assert ms[..k + 1][..k] == ms[..k];
        var t := convert(ms[k]);
        if t.None? {
          assert ConvertAll(ms[..k + 1], convert).None?;
          ghost var first := FirstMatched(patterns);
          assert ms != [] && first == Some(p);
          ConvertAllPrefixFails(ms, k + 1, convert);
          return None;
        }
        transactions := transactions + [t.value];
      }
      assert ms[..|ms|] == ms;
      if |transactions| > 0 {
        assert FirstMatched(patterns) == Some(p);
        return Some(transactions);
      }
    }
    r := Some(transactions);
  }

  /** A failing prefix makes the whole conversion fail. */
  lemma {:induction false} ConvertAllPrefixFails(ms: seq<Match>, n: nat, convert: Match -> Option<Statement>)
    requires n <= |ms| && ConvertAll(ms[..n], convert).None?
    ensures ConvertAll(ms, convert).None?
    decreases |ms| - n
  {
    if n < |ms| {
      assert ms[..n + 1][..n] == ms[..n];
      ConvertAllPrefixFails(ms, n + 1, convert);
    } else {
      assert ms[..n] == ms;
    }
  }

  // ------------------------------------------------------------ table rows

  /** The length of the run of whitespace that starts `s`. */
  function SpaceRun(s: string): (n: nat)
    ensures n <= |s|
    ensures forall i :: 0 <= i < n ==> IsSpace(s[i])
    ensures n < |s| ==> !IsSpace(s[n])
  {
    if s != [] && IsSpace(s[0]) then 1 + SpaceRun(s[1..]) else 0
  }

  /** A finished piece, trimmed, kept only when something is left. */
  function Keep(piece: string): (r: seq<string>)
  {
    if Trim(piece) == [] then [] else [Trim(piece)]
  }

  /**
   * `split(/\s{2,}|\t/)` then trim and drop empty cells: a whitespace run
   * of two or more characters, or a lone tab, ends the current piece;
   * a single other whitespace character stays inside it.
   */
  function CellsFrom(s: string, piece: string): (r: seq<string>)
    decreases |s|
  {
    if s == [] then Keep(piece)
    else if IsSpace(s[0]) && (SpaceRun(s) >= 2 || s[0] == '\t') then Keep(piece) + CellsFrom(s[SpaceRun(s)..], [])
    else CellsFrom(s[1..], piece + [s[0]])
  }

  /** parseTableRow. */
  function TableRow(line: string): seq<string>
  {
    CellsFrom(line, [])
  }

  /** All cells laid end to end. */
  function Flatten(cells: seq<string>): string
  {
    if cells == [] then [] else cells[0] + Flatten(cells[1..])
  }

  lemma {:induction false} FlattenConcat(a: seq<string>, b: seq<string>)
    ensures Flatten(a + b) == Flatten(a) + Flatten(b)
  {
    if a != [] {
      assert (a + b)[1..] == a[1..] + b;
      FlattenConcat(a[1..], b);
    } else {
      assert a + b == b;
    }
  }

  /** Dropping a leading run of whitespace does not change the non-blank characters. */
  lemma DropSpacesPrefix(s: string, k: nat)
    requires k <= |s| && forall i :: 0 <= i < k ==> IsSpace(s[i])
    ensures RemoveChars(s, SpaceChars) == RemoveChars(s[k..], SpaceChars)
  {
    assert s == s[..k] + s[k..];
    RemoveCharsConcat(s[..k], s[k..], SpaceChars);
    RemoveCharsAll(s[..k], SpaceChars);
  }

  /** Dropping a trailing run of whitespace does not change the non-blank characters. */
  lemma DropSpacesSuffix(s: string, k: nat)
    requires k <= |s| && forall i :: k <= i < |s| ==> IsSpace(s[i])
    ensures RemoveChars(s, SpaceChars) == RemoveChars(s[..k], SpaceChars)
  {
    assert s == s[..k] + s[k..];
    RemoveCharsConcat(s[..k], s[k..], SpaceChars);
    RemoveCharsAll(s[k..], SpaceChars);
  }

  /** Trimming removes only whitespace. */
  lemma TrimDropsOnlySpaces(s: string)
    ensures RemoveChars(Trim(s), SpaceChars) == RemoveChars(s, SpaceChars)
  {
    var a := TrimStart(s);
    DropSpacesPrefix(s, |s| - |a|);
    DropSpacesSuffix(a, |TrimEnd(a)|);
  }

  lemma KeepShape(piece: string)
    ensures forall k :: 0 <= k < |Keep(piece)| ==> Keep(piece)[k] != [] && NoEdgeSpace(Keep(piece)[k])
    ensures !HasChar(piece, '\t') ==> forall k :: 0 <= k < |Keep(piece)| ==> !HasChar(Keep(piece)[k], '\t')
  {
    TrimKeepsChars(piece, '\t');
  }

  lemma KeepText(piece: string)
    ensures RemoveChars(Flatten(Keep(piece)), SpaceChars) == RemoveChars(piece, SpaceChars)
  {
    TrimDropsOnlySpaces(piece);
    if Trim(piece) == [] {
      assert RemoveChars([], SpaceChars) == [];
    } else {
      assert [Trim(piece)][1..] == [];
      assert Flatten([Trim(piece)]) == Trim(piece) + Flatten([]);
      assert Trim(piece) + [] == Trim(piece);
    }
  }

  /** Cells that are non-empty, trimmed and free of tabs. */
  predicate CleanCells(cells: seq<string>)
  {
    forall k :: 0 <= k < |cells| ==> cells[k] != [] && NoEdgeSpace(cells[k]) && !HasChar(cells[k], '\t')
  }

  /** Two lists of clean cells laid end to end are clean. */
  lemma CleanConcat(a: seq<string>, b: seq<string>)
    requires CleanCells(a) && CleanCells(b)
    ensures CleanCells(a + b)
  {
    assert forall k :: |a| <= k < |a + b| ==> (a + b)[k] == b[k - |a|];
  }

  /** Every cell is non-empty, trimmed and free of tabs. */
  lemma {:induction false} CellsShape(s: string, piece: string)
    requires !HasChar(piece, '\t')
    ensures CleanCells(CellsFrom(s, piece))
    decreases |s|
  {
    KeepShape(piece);
    if s == [] {
    } else if IsSpace(s[0]) && (SpaceRun(s) >= 2 || s[0] == '\t') {
      var n := SpaceRun(s);
      assert !HasChar([], '\t');
      CellsShape(s[n..], []);
      CleanConcat(Keep(piece), CellsFrom(s[n..], []));
    } else {
      assert s[0] != '\t';
      HasCharConcat(piece, [s[0]], '\t');
      CellsShape(s[1..], piece + [s[0]]);
    }
  }

  /** Where a run of whitespace ends a piece, the non-blank text is the piece's followed by the rest's. */
  lemma SplitText(piece: string, s: string, n: nat)
    requires n <= |s| && forall i :: 0 <= i < n ==> IsSpace(s[i])
    ensures RemoveChars(piece + s, SpaceChars) == RemoveChars(piece, SpaceChars) + RemoveChars(s[n..], SpaceChars)
  {
    RemoveCharsConcat(piece, s, SpaceChars);
    DropSpacesPrefix(s, n);
  }

  /** The cells hold every non-whitespace character of the line, in order. */
  lemma {:induction false} CellsText(s: string, piece: string)
    ensures RemoveChars(Flatten(CellsFrom(s, piece)), SpaceChars) == RemoveChars(piece + s, SpaceChars)
    decreases |s|
  {
    if s == [] {
      KeepText(piece);
      assert piece + s == piece;
    } else if IsSpace(s[0]) && (SpaceRun(s) >= 2 || s[0] == '\t') {
      var n := SpaceRun(s);
      var rest := CellsFrom(s[n..], []);
      var kept := Keep(piece);
      CellsText(s[n..], []);
      KeepText(piece);
      FlattenConcat(kept, rest);
      RemoveCharsConcat(Flatten(kept), Flatten(rest), SpaceChars);
      SplitText(piece, s, n);
      assert [] + s[n..] == s[n..];
    } else {
      CellsText(s[1..], piece + [s[0]]);
      assert piece + s == (piece + [s[0]]) + s[1..];
    }
  }

  /** parseTableRow's cells: non-empty, trimmed, tab-free, and together every non-blank character of the line. */
  lemma TableRowSpec(line: string)
    ensures forall k :: 0 <= k < |TableRow(line)| ==>
      TableRow(line)[k] != [] && NoEdgeSpace(TableRow(line)[k]) && !HasChar(TableRow(line)[k], '\t')
    ensures RemoveChars(Flatten(TableRow(line)), SpaceChars) == RemoveChars(line, SpaceChars)
  {
    assert !HasChar([], '\t');
    CellsShape(line, []);
    CellsText(line, []);
    assert [] + line == line;
  }

  /** Text in which no split can happen: no tab and no two whitespace characters side by side. */
  predicate SingleSpaced(s: string)
  {
    !HasChar(s, '\t') && NoDoubleSpace(s)
  }

  /** No whitespace character is followed by another. */
  predicate NoDoubleSpace(s: string)
  {
    |s| < 2 || (!(IsSpace(s[0]) && IsSpace(s[1])) && NoDoubleSpace(s[1..]))
  }

  /** What may stand between two cells: whitespace only, and either two characters or more or a leading tab. */
  predicate Separator(sep: string)
  {
    sep != [] && (forall i :: 0 <= i < |sep| ==> IsSpace(sep[i])) && (|sep| >= 2 || sep[0] == '\t')
  }

  lemma SingleSpacedTail(s: string)
    requires s != [] && SingleSpaced(s)
    ensures SingleSpaced(s[1..])
  {
    HasCharTail(s, '\t');
  }

  /**
   * Single-spaced text that does not end in whitespace is read into the
   * current piece whole, whatever follows it.
   */
  lemma {:induction false} ScanThrough(c: string, t: string, piece: string)
    requires SingleSpaced(c) && (c == [] || !IsSpace(c[|c| - 1]))
    ensures CellsFrom(c + t, piece) == CellsFrom(t, piece + c)
    decreases |c|
  {
    if c == [] {
      assert c + t == t && piece + c == piece;
    } else {
      var s := c + t;
      var next := piece + [c[0]];
      assert s[1..] == c[1..] + t;
      assert CellsFrom(s, piece) == CellsFrom(s[1..], next) by {
        NoSplitAtStart(c);
        assert s[0] == c[0];
        if IsSpace(c[0]) {
          assert |c| >= 2;
          assert s[1] == c[1];
        }
      }
      assert SingleSpaced(c[1..]) by {
        SingleSpacedTail(c);
      }
      ScanThrough(c[1..], t, next);
      assert next + c[1..] == piece + c by {
        CsvParser.ConcatAssociates(piece, [c[0]], c[1..]);
        assert [c[0]] + c[1..] == c;
      }
    }
  }

  /** A line with no tab and no double whitespace is never split: its pieces stay one cell. */
  lemma {:induction false} NoSplitInside(s: string, piece: string)
    requires SingleSpaced(s)
    ensures CellsFrom(s, piece) == Keep(piece + s)
    decreases |s|
  {
    if s == [] {
      assert piece + s == piece;
    } else {
      var next := piece + [s[0]];
      assert CellsFrom(s, piece) == CellsFrom(s[1..], next) by {
        NoSplitAtStart(s);
      }
      assert SingleSpaced(s[1..]) by {
        SingleSpacedTail(s);
      }
      NoSplitInside(s[1..], next);
      assert next + s[1..] == piece + s by {
        CsvParser.ConcatAssociates(piece, [s[0]], s[1..]);
        assert [s[0]] + s[1..] == s;
      }
    }
  }

  /** Single-spaced text does not start with a whitespace run that ends a piece. */
  lemma NoSplitAtStart(s: string)
    requires s != [] && SingleSpaced(s)
    ensures !(IsSpace(s[0]) && (SpaceRun(s) >= 2 || s[0] == '\t'))
  {
    HasCharTail(s, '\t');
    if IsSpace(s[0]) && |s| >= 2 {
      assert !IsSpace(s[1]);
    }
  }

  /** Such a line with any non-blank text is one cell, the trimmed line. */
  lemma OneCell(line: string)
    requires SingleSpaced(line) && Trim(line) != []
    ensures TableRow(line) == [Trim(line)]
  {
    NoSplitInside(line, []);
    assert [] + line == line;
  }

  /** A separator followed by text that starts with no whitespace is one run of whitespace. */
  lemma {:induction false} SpaceRunOf(sep: string, rest: string)
    requires forall i :: 0 <= i < |sep| ==> IsSpace(sep[i])
    requires rest == [] || !IsSpace(rest[0])
    ensures SpaceRun(sep + rest) == |sep|
    decreases |sep|
  {
    if sep == [] {
      assert sep + rest == rest;
    } else {
      assert (sep + rest)[1..] == sep[1..] + rest;
      SpaceRunOf(sep[1..], rest);
    }
  }

  /** A clean cell: non-empty, trimmed, and with nothing inside that would split it. */
  predicate CellText(c: string)
  {
    c != [] && NoEdgeSpace(c) && SingleSpaced(c)
  }

  /** One clean cell followed by a separator ends a piece of exactly that cell. */
  lemma CellThenSeparator(c: string, sep: string, rest: string)
    requires CellText(c) && Separator(sep) && (rest == [] || !IsSpace(rest[0]))
    ensures CellsFrom(c + sep + rest, []) == [c] + CellsFrom(rest, [])
  {
    assert c + sep + rest == c + (sep + rest);
    ScanThrough(c, sep + rest, []);
    assert [] + c == c;
    var s := sep + rest;
    SpaceRunOf(sep, rest);
    assert s[0] == sep[0] && IsSpace(s[0]);
    assert s[|sep|..] == rest;
    TrimOfTrimmed(c);
  }

  /**
   * The converse of the split: clean cells joined by separators of two or
   * more whitespace characters, or by a tab, read back as the same cells.
   */
  lemma {:induction false} TableRowOfJoin(cells: seq<string>, sep: string)
    requires Separator(sep)
    requires forall k :: 0 <= k < |cells| ==> CellText(cells[k])
    ensures TableRow(Join(cells, sep)) == cells
  {
    if cells == [] {
      assert Trim([]) == [];
    } else if |cells| == 1 {
      assert CellText(cells[0]);
      ScanThrough(cells[0], [], []);
      assert cells[0] + [] == cells[0] && [] + cells[0] == cells[0];
      TrimOfTrimmed(cells[0]);
    } else {
      var rest := Join(cells[1..], sep);
      assert Join(cells, sep) == cells[0] + sep + rest;
      assert CellText(cells[0]) && CellText(cells[1]);
      assert rest[0] == cells[1][0] by {
        JoinStartsWithFirst(cells[1..], sep);
      }
      CellThenSeparator(cells[0], sep, rest);
      TableRowOfJoin(cells[1..], sep);
      assert cells == [cells[0]] + cells[1..];
    }
  }

  /** Joining starts with the first part. */
  lemma JoinStartsWithFirst(parts: seq<string>, sep: string)
    requires parts != [] && parts[0] != []
    ensures Join(parts, sep) != [] && Join(parts, sep)[0] == parts[0][0]
  {
  }

  // ------------------------------------------------------------ parse quality

  datatype Quality = Quality(totalTransactions: nat, validDates: nat, validAmounts: nat, validDescriptions: nat, score: nat)

  /** A truthy date that `Date.parse` accepts; `dateParses` stands for `!isNaN(Date.parse(...))`. */
  predicate ValidDate(t: Statement, dateParses: string -> bool)
  {
    t.date != [] && dateParses(t.date)
  }

  /** A truthy amount: zero is falsy and counts as invalid. */
  predicate ValidAmount(t: Statement)
  {
    t.amount != 0.0
  }

  predicate ValidDescription(t: Statement)
  {
    |t.description| > 3
  }

  function CountDates(ts: seq<Statement>, dateParses: string -> bool): (n: nat)
    ensures n <= |ts|
  {
    if ts == [] then 0 else CountDates(ts[..|ts| - 1], dateParses) + (if ValidDate(ts[|ts| - 1], dateParses) then 1 else 0)
  }

  function CountAmounts(ts: seq<Statement>): (n: nat)
    ensures n <= |ts|
  {
    if ts == [] then 0 else CountAmounts(ts[..|ts| - 1]) + (if ValidAmount(ts[|ts| - 1]) then 1 else 0)
  }

  function CountDescriptions(ts: seq<Statement>): (n: nat)
    ensures n <= |ts|
  {
    if ts == [] then 0 else CountDescriptions(ts[..|ts| - 1]) + (if ValidDescription(ts[|ts| - 1]) then 1 else 0)
  }

  /** `Math.round(valid / (3 n) * 100)`, computed exactly: floor((200 valid + 3 n) / (6 n)). */
  function Score(valid: nat, n: nat): (score: nat)
    requires n > 0 && valid <= 3 * n
    ensures score <= 100
    ensures valid == 3 * n ==> score == 100
    ensures valid == 0 ==> score == 0
  {
    ScoreFacts(valid, n);
    (200 * valid + 3 * n) / (6 * n)
  }

  lemma ScoreFacts(valid: nat, n: nat)
    requires n > 0 && valid <= 3 * n
    ensures (200 * valid + 3 * n) / (6 * n) <= 100
    ensures valid == 3 * n ==> (200 * valid + 3 * n) / (6 * n) == 100
    ensures valid == 0 ==> (200 * valid + 3 * n) / (6 * n) == 0
  {
    ScoreAtMost100(valid, n);
    if valid == 3 * n {
      ScoreAllValid(n);
    }
    if valid == 0 {
      ScoreNoneValid(n);
    }
  }

  lemma MulMono(a: int, b: int, m: int)
    requires m > 0 && a >= b
    ensures a * m >= b * m
  {
    assert a * m - b * m == (a - b) * m;
  }

  lemma DivBelow(x: nat, m: nat, k: int)
    requires m > 0 && x < k * m
    ensures x / m < k
  {
    var q := x / m;
    assert q * m <= x;
    if q >= k {
      MulMono(q, k, m);
    }
  }

  lemma DivAtLeast(x: nat, m: nat, k: int)
    requires m > 0 && k * m <= x
    ensures k <= x / m
  {
    var q := x / m;
    assert x < (q + 1) * m;
    if q + 1 <= k {
      MulMono(k, q + 1, m);
    }
  }

  lemma ScoreAtMost100(valid: nat, n: nat)
    requires n > 0 && valid <= 3 * n
    ensures (200 * valid + 3 * n) / (6 * n) <= 100
  {
    var m := 6 * n;
    var x := 200 * valid + 3 * n;
    assert x < 101 * m;
    DivBelow(x, m, 101);
  }

  lemma ScoreAllValid(n: nat)
    requires n > 0
    ensures (200 * (3 * n) + 3 * n) / (6 * n) == 100
  {
    var m := 6 * n;
    var x := 200 * (3 * n) + 3 * n;
    assert x < 101 * m;
    DivBelow(x, m, 101);
    assert 100 * m <= x;
    DivAtLeast(x, m, 100);
  }

  lemma ScoreNoneValid(n: nat)
    requires n > 0
    ensures (200 * 0 + 3 * n) / (6 * n) == 0
  {
    var m := 6 * n;
    var x := 200 * 0 + 3 * n;
    assert x < 1 * m;
    DivBelow(x, m, 1);
    DivAtLeast(x, m, 0);
  }

  /**
   * assessParsingQuality: each counter counts the transactions with a valid
   * field, so none exceeds the total; the score is 0 without transactions
   * and otherwise the rounded percentage of valid fields, in [0, 100].
   */
  method AssessParsingQuality(ts: seq<Statement>, dateParses: string -> bool) returns (q: Quality)
    ensures q.totalTransactions == |ts|
    ensures q.validDates == CountDates(ts, dateParses) && q.validAmounts == CountAmounts(ts)
      && q.validDescriptions == CountDescriptions(ts)
    ensures q.validDates <= |ts| && q.validAmounts <= |ts| && q.validDescriptions <= |ts|
    ensures |ts| == 0 ==> q.score == 0
    ensures |ts| > 0 ==> q.score == Score(q.validDates + q.validAmounts + q.validDescriptions, |ts|)
    ensures q.score <= 100
  {
    var dates := 0;
    var amounts := 0;
    var descriptions := 0;
    for i := 0 to |ts|
      invariant dates == CountDates(ts[..i], dateParses)
      invariant amounts == CountAmounts(ts[..i])
      invariant descriptions == CountDescriptions(ts[..i])
    {
      var t := ts[i];
      assert ts[..i + 1][..i] == ts[..i];
      if t.date != [] && dateParses(t.date) {
        dates := dates + 1;
      }
      if t.amount != 0.0 {
        amounts := amounts + 1;
      }
      if |t.description| > 3 {
        descriptions := descriptions + 1;
      }
    }
    assert ts[..|ts|] == ts;
    var score := 0;
    if |ts| > 0 {
      score := Score(dates + amounts + descriptions, |ts|);
    }
    q := Quality(|ts|, dates, amounts, descriptions, score);
  }
}
