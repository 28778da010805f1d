/**
 * api/import_transactions.php: the session user's bulk import of the
 * transactions the import page previewed, posted as a JSON array.
 * Guards first, then the duplicate-checking loop inside one database
 * transaction that a failed commit rolls back.
 */
module ImportApi {
  import opened Wrappers
  import opened Finance
  import opened Store
  import opened BulkImport
  import opened Server

  /** One decoded JSON element; a key that is absent or `null` fails `isset` and is `None`. */
  datatype Submitted = Submitted(date: Option<string>, description: Option<string>, amount: Option<real>,
                                 kind: Option<string>, category: Option<string>)

  /**
   * What `json_decode($_POST['transactions'], true)` returned: an array
   * (the values of a JSON array or object, in order) or anything else,
   * including `null` for text that is not JSON.
   */
  datatype Decoded = NotArray | Array(items: seq<Submitted>)

  datatype Request = Request(verb: string, action: Option<string>, transactions: Option<Decoded>)

  /** The early exits, in order; `None` when the request reaches the loop. */
  function Guard(r: Request): (e: Option<string>)
    ensures e.None? <==> (r.verb == "POST" && r.action == Some("bulk_import")
                          && r.transactions.Some? && r.transactions.value.Array? && r.transactions.value.items != [])
  {
    if r.verb != "POST" then Some("Method not allowed")
    else if r.action != Some("bulk_import") then Some("Invalid action")
    else if r.transactions.None? then Some("No transaction data provided")
    // `!$transactions` is also true of the empty array
    else if r.transactions.value.NotArray? || r.transactions.value.items == [] then Some("Invalid transaction data")
    else None
  }

  /**
   * The loop's reading of one element: an error unless date, description,
   * amount and type are all set; otherwise the target table by type and
   * `abs(amount)` both as the query's probe and as the stored amount.
   */
  function PlanOf(t: Submitted): Plan
  {
    if t.date.None? || t.description.None? || t.amount.None? || t.kind.None? then Invalid
    else Insert(KindOf(t.kind), false, t.date.value, t.description.value, Abs(t.amount.value), Abs(t.amount.value), t.category)
  }

  function Plans(items: seq<Submitted>): (plans: seq<Plan>)
    ensures |plans| == |items|
    ensures forall k :: 0 <= k < |items| ==> plans[k] == PlanOf(items[k])
  {
    seq(|items|, k requires 0 <= k < |items| => PlanOf(items[k]))
  }

  /**
   * The whole endpoint: the reply and the tables afterwards. `refuses`
   * says which inserts the database throws on; `commitError` is the
   * message of an exception that reaches the outer handler, which rolls
   * the batch back.
   */
  function Spec(r: Request, l: Ledger, user: int, refuses: Plan -> bool, commitError: Option<string>): Response
  {
    match Guard(r)
    case Some(m) => Response(Failure(m), l)
    case None =>
      var b := Run(l, NoCounts, user, Plans(r.transactions.value.items), 0, refuses);
      if commitError.Some? then Response(Failure("Import failed: " + commitError.value), l)
      else Response(Counted(b.counts), b.tables)
  }

  method ImportBatch(db: Database, user: int, r: Request, refuses: Plan -> bool, commitError: Option<string>) returns (reply: Reply)
    modifies db`income, db`expenses
    ensures Response(reply, db.Tables()) == Spec(r, old(db.Tables()), user, refuses, commitError)
  {
    var e := Guard(r);
    if e.Some? {
      return Failure(e.value);
    }
    var saved := db.Tables();
    var c := RunPlans(db, user, Plans(r.transactions.value.items), refuses);
    if commitError.Some? {
      db.SetLedger(saved);
      reply := Failure("Import failed: " + commitError.value);
    } else {
      reply := Counted(c);
    }
  }

  /** A request stopped by a guard, or a batch rolled back, leaves both tables as they were. */
  lemma FailureChangesNothing(r: Request, l: Ledger, user: int, refuses: Plan -> bool, commitError: Option<string>)
    requires Guard(r).Some? || commitError.Some?
    ensures Spec(r, l, user, refuses, commitError).tables == l
    ensures Spec(r, l, user, refuses, commitError).reply.Failure?
  {
  }

  /** Every submitted element is counted once: imported + duplicates + errors is the array's length. */
  lemma CountsAddUp(r: Request, l: Ledger, user: int, refuses: Plan -> bool)
    requires Guard(r).None?
    ensures Spec(r, l, user, refuses, None).reply.Counted?
    ensures Spec(r, l, user, refuses, None).reply.counts.Sum() == |r.transactions.value.items|
  {
    RunCounts(l, NoCounts, user, Plans(r.transactions.value.items), 0, refuses);
  }

  /** An element without date, description, amount or type is an error and inserts nothing. */
  lemma MissingFieldIsError(t: Submitted, l: Ledger, user: int, refused: bool)
    requires t.date.None? || t.description.None? || t.amount.None? || t.kind.None?
    ensures Classify(l, user, PlanOf(t), refused) == Failed
    ensures Apply(l, user, PlanOf(t), refused) == l
  {
  }

  /**
   * A complete element goes to `income` exactly when its type is the string
   * "income"; it is a duplicate exactly when that table already holds a row
   * of the user with its date and description whose amount is strictly
   * within 0.01 of `abs(amount)`.
   */
  lemma CompleteElement(t: Submitted, l: Ledger, user: int, refused: bool)
    requires t.date.Some? && t.description.Some? && t.amount.Some? && t.kind.Some?
    ensures PlanOf(t).Insert? && (PlanOf(t).into == Income <==> t.kind == Some("income"))
    ensures Classify(l, user, PlanOf(t), refused) == Duplicated <==>
      exists row :: row in l.Rows(KindOf(t.kind)) && row.user == user && row.date == t.date.value
        && row.description == t.description.value && Abs(row.amount - Abs(t.amount.value)) < 0.01
  {
    var p := PlanOf(t);
    DuplicateSpec(Searched(l, p), user, p);
  }

  /**
   * A committed import only appends rows of the session user, each with a
   * non-negative amount, one per element counted as imported.
   */
  lemma AppendsOwnRows(r: Request, l: Ledger, user: int, refuses: Plan -> bool)
    requires Guard(r).None?
    ensures var s := Spec(r, l, user, refuses, None);
      Extends(l.income, s.tables.income, user) && Extends(l.expenses, s.tables.expenses, user)
      && |s.tables.income.rows| + |s.tables.expenses.rows| == |l.income.rows| + |l.expenses.rows| + s.reply.counts.imported
    ensures NonNegativeRows(l.income) && NonNegativeRows(l.expenses) ==>
      var s := Spec(r, l, user, refuses, None);
      NonNegativeRows(s.tables.income) && NonNegativeRows(s.tables.expenses)
  {
    var plans := Plans(r.transactions.value.items);
    RunAppends(l, NoCounts, user, plans, 0, refuses);
    if NonNegativeRows(l.income) && NonNegativeRows(l.expenses) {
      RunKeepsNonNegative(l, NoCounts, user, plans, 0, refuses);
    }
  }

  /**
   * Posting the same batch again after it was committed imports nothing and
   * leaves the tables as they are: each element now finds its own row.
   */
  lemma ResubmitImportsNothing(r: Request, l: Ledger, user: int, refuses: Plan -> bool)
    requires Guard(r).None?
    ensures var first := Spec(r, l, user, refuses, None).tables;
      Spec(r, first, user, refuses, None).reply.counts.imported == 0
      && Spec(r, first, user, refuses, None).tables == first
  {
    var plans := Plans(r.transactions.value.items);
    Resubmission(l, user, plans, refuses);
  }
}
