/**
 * api/import.php: a statement file uploaded with a session token. CSV
 * files are read row by row with fixed columns (date, description,
 * amount, category); each row is checked for a duplicate across both
 * tables and filed by the sign of its amount. There is no enclosing
 * database transaction: every insert stands on its own.
 */
module UploadApi {
  import opened Wrappers
  import opened Finance
  import opened Store
  import opened BulkImport
  import opened Server
  import opened Text

  const UploadOk := 0

  /**
   * One entry of `$_FILES['file']`: the upload status, the client's file
   * name, and the records `fgetcsv` reads from it (`None` when the file
   * cannot be opened).
   */
  datatype Upload = Upload(error: int, name: string, records: Option<seq<seq<string>>>)

  datatype Request = Request(verb: string, token: Option<string>, file: Option<Upload>)

  /**
   * The calls into PHP this endpoint depends on: `DateTime::createFromFormat`
   * with 'Y-m-d' and with 'm/d/Y', each giving the date re-formatted as
   * 'Y-m-d' when it accepts, and `floatval`.
   */
  datatype Platform = Platform(ymd: string -> Option<string>, mdy: string -> Option<string>, floatval: string -> real)

  /** `pathinfo($name, PATHINFO_EXTENSION)`: the text after the last '.' of the last path segment, or "". */
  function Extension(name: string): (e: string)
    ensures forall k :: 0 <= k < |e| ==> e[k] != '.' && e[k] != '/'
    ensures e != [] ==> EndsWith(name, "." + e)
  {
    AfterLastDot(name).GetOr("")
  }

  /** The text after the last '.' of `s`, unless a '/' comes after it. */
  function AfterLastDot(s: string): (r: Option<string>)
    ensures r.Some? ==> forall k :: 0 <= k < |r.value| ==> r.value[k] != '.' && r.value[k] != '/'
    ensures r.Some? ==> EndsWith(s, "." + r.value)
    decreases |s|
  {
    if s == [] || s[|s| - 1] == '/' then None
    else if s[|s| - 1] == '.' then Some("")
    else
      var r := AfterLastDot(s[..|s| - 1]);
      if r.None? then None
      else
        assert s == s[..|s| - 1] + [s[|s| - 1]];
        Some(r.value + [s[|s| - 1]])
  }

  /** The date of a row as the endpoint stores it: 'Y-m-d' first, then 'm/d/Y', else the row is an error. */
  function AcceptDate(s: string, p: Platform): (r: Option<string>)
    ensures p.ymd(s).Some? ==> r == p.ymd(s)
    ensures p.ymd(s).None? ==> r == p.mdy(s)
  {
    if p.ymd(s).Some? then p.ymd(s) else p.mdy(s)
  }

  /** `floatval(str_replace(['$', ','], '', $row[2]))`, with a missing cell read as "". */
  function AmountOf(row: seq<string>, p: Platform): real
  {
    p.floatval(RemoveChars(if |row| > 2 then row[2] else "", {'$', ','}))
  }

  /**
   * One data row: an error when its date is accepted by neither format;
   * otherwise the duplicate query over both tables probes `abs(amount)`,
   * an amount >= 0 goes to `income` as it is and a negative one to
   * `expenses` as `abs(amount)`.
   */
  function PlanOf(row: seq<string>, p: Platform): Plan
  {
    if |row| < 2 then Invalid
    else
      var date := AcceptDate(row[0], p);
      if date.None? then Invalid
      else
        var amount := AmountOf(row, p);
        Insert(if amount >= 0.0 then Income else Expenses, true, date.value, row[1], Abs(amount),
               if amount >= 0.0 then amount else Abs(amount), Some(if |row| > 3 then row[3] else "other"))
  }

  /** The records after the header line, which `fgetcsv` consumes first. */
  function DataRows(records: seq<seq<string>>): seq<seq<string>>
  {
    if records == [] then [] else records[1..]
  }

  function Plans(rows: seq<seq<string>>, p: Platform): (plans: seq<Plan>)
    ensures |plans| == |rows|
    ensures forall k :: 0 <= k < |rows| ==> plans[k] == PlanOf(rows[k], p)
  {
    seq(|rows|, k requires 0 <= k < |rows| => PlanOf(rows[k], p))
  }

  /** `processCSVFile`. */
  function CsvSpec(records: Option<seq<seq<string>>>, l: Ledger, user: int, p: Platform, refuses: Plan -> bool): Response
  {
    if records.None? then Response(Failure("CSV processing failed: Cannot read CSV file"), l)
    else
      var b := Run(l, NoCounts, user, Plans(DataRows(records.value), p), 0, refuses);
      Response(Counted(b.counts), b.tables)
  }

  /** The whole endpoint; anything but POST (after OPTIONS) prints nothing. */
  function UploadSpec(q: Request, users: seq<User>, l: Ledger, p: Platform, refuses: Plan -> bool): Response
  {
    if q.verb != "POST" then Response(Silent, l)
    else match Authenticate(users, q.token.GetOr(""))
      case Err(m) => Response(Failure(m), l)
      case Ok(user) =>
        if q.file.None? then Response(Failure("No file uploaded"), l)
        else if q.file.value.error != UploadOk then Response(Failure("File upload error"), l)
        else
          var kind := ToLower(Extension(q.file.value.name));
          if kind == "csv" then CsvSpec(q.file.value.records, l, user, p, refuses)
          else if kind == "pdf" then Response(Failure("PDF processing not yet implemented on server side"), l)
          else Response(Failure("Unsupported file type"), l)
  }

  /** Only a CSV upload by an authenticated user can change the tables. */
  lemma OnlyCsvInserts(q: Request, users: seq<User>, l: Ledger, p: Platform, refuses: Plan -> bool)
    requires UploadSpec(q, users, l, p, refuses).tables != l
    ensures q.verb == "POST" && Authenticate(users, q.token.GetOr("")).Ok?
    ensures q.file.Some? && q.file.value.error == UploadOk && ToLower(Extension(q.file.value.name)) == "csv"
  {
  }

  /** Every data row read is counted once as imported, duplicate or error. */
  lemma CsvCountsAddUp(records: seq<seq<string>>, l: Ledger, user: int, p: Platform, refuses: Plan -> bool)
    ensures CsvSpec(Some(records), l, user, p, refuses).reply.counts.Sum() == |DataRows(records)|
    ensures records != [] ==> |DataRows(records)| == |records| - 1
  {
    RunCounts(l, NoCounts, user, Plans(DataRows(records), p), 0, refuses);
  }

  /**
   * A row whose date both formats reject is an error; an accepted row is
   * filed in `income` exactly when its amount is >= 0, always stores a
   * non-negative amount, and is a duplicate exactly when either table holds
   * a row of the user with its date and description within 0.01 of its
   * absolute amount.
   */
  lemma RowFiling(row: seq<string>, l: Ledger, user: int, p: Platform, refused: bool)
    requires |row| >= 2
    ensures AcceptDate(row[0], p).None? ==> Classify(l, user, PlanOf(row, p), refused) == Failed
    ensures AcceptDate(row[0], p).Some? ==>
      var plan := PlanOf(row, p);
      (plan.into == Income <==> AmountOf(row, p) >= 0.0)
      && plan.amount == Abs(AmountOf(row, p))
      && (Classify(l, user, plan, refused) == Duplicated <==>
          exists r :: (r in l.income.rows || r in l.expenses.rows) && r.user == user
            && r.date == AcceptDate(row[0], p).value && r.description == row[1] && Abs(r.amount - Abs(AmountOf(row, p))) < 0.01)
  {
    var plan := PlanOf(row, p);
    if plan.Insert? {
      DuplicateSpec(Searched(l, plan), user, plan);
      assert Searched(l, plan) == l.income.rows + l.expenses.rows;
      assert forall r :: r in Searched(l, plan) <==> r in l.income.rows || r in l.expenses.rows;
    }
  }

  /** Uploading the same file again after it was read imports nothing: every row now finds its own. */
  lemma ReuploadImportsNothing(records: seq<seq<string>>, l: Ledger, user: int, p: Platform, refuses: Plan -> bool)
    ensures var first := CsvSpec(Some(records), l, user, p, refuses).tables;
      CsvSpec(Some(records), first, user, p, refuses).reply.counts.imported == 0
      && CsvSpec(Some(records), first, user, p, refuses).tables == first
  {
    Resubmission(l, user, Plans(DataRows(records), p), refuses);
  }

  /** A name ending in '.' and a segment free of '.' and '/' has that segment as its extension. */
  lemma {:induction false} ExtensionOf(base: string, e: string)
    requires forall k :: 0 <= k < |e| ==> e[k] != '.' && e[k] != '/'
    ensures Extension(base + "." + e) == e
    decreases |e|
  {
    var t := base + "." + e;
    if e == [] {
      assert t[|t| - 1] == '.';
    } else {
      var init := e[..|e| - 1];
      assert t[..|t| - 1] == base + "." + init;
      ExtensionOf(base, init);
      assert t[|t| - 1] == e[|e| - 1] && init + [e[|e| - 1]] == e;
    }
  }

  method ProcessCsvFile(db: Database, user: int, records: Option<seq<seq<string>>>, p: Platform, refuses: Plan -> bool) returns (reply: Reply)
    modifies db`income, db`expenses
    ensures Response(reply, db.Tables()) == CsvSpec(records, old(db.Tables()), user, p, refuses)
  {
    if records.None? {
      return Failure("CSV processing failed: Cannot read CSV file");
    }
    var c := RunPlans(db, user, Plans(DataRows(records.value), p), refuses);
    reply := Counted(c);
  }

  method HandleUpload(db: Database, q: Request, p: Platform, refuses: Plan -> bool) returns (reply: Reply)
    modifies db`income, db`expenses
    ensures Response(reply, db.Tables()) == UploadSpec(q, db.users.rows, old(db.Tables()), p, refuses)
  {
    if q.verb != "POST" {
      return Silent;
    }
    var auth := Authenticate(db.users.rows, q.token.GetOr(""));
    if auth.Err? {
      return Failure(auth.error);
    }
    if q.file.None? {
      return Failure("No file uploaded");
    }
    var file := q.file.value;
    if file.error != UploadOk {
      return Failure("File upload error");
    }
    var kind := ToLower(Extension(file.name));
    if kind == "csv" {
      reply := ProcessCsvFile(db, auth.value, file.records, p, refuses);
    } else if kind == "pdf" {
      reply := Failure("PDF processing not yet implemented on server side");
    } else {
      reply := Failure("Unsupported file type");
    }
  }
}
