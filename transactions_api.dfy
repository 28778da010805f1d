/**
 * api/transactions.php: the token-authenticated JSON endpoint of the
 * mobile client. The token comes from the `Authorization` header (every
 * "Bearer " removed) or from the body; the HTTP method and the `action`
 * field choose a listing, a single insert, a bulk import, an update or a
 * delete, each scoped to the token's user.
 */
module TransactionsApi {
  import opened Wrappers
  import opened Finance
  import opened Store
  import opened BulkImport
  import opened Server
  import opened Text

  /** One element of `transactions` in a `bulk_import` body. */
  datatype Entry = Entry(date: string, description: string, amount: real, kind: Option<string>, category: Option<string>)

  /**
   * The decoded JSON body. The fields of a single transaction are used by
   * `add_income`, `add_expense` and `PUT`; `id` and `type` by `PUT` and
   * `DELETE`.
   */
  datatype Input = Input(token: Option<string>, action: Option<string>, kind: Option<string>, id: Option<int>,
                         amount: real, description: string, category: Option<string>, date: string,
                         transactions: Option<seq<Entry>>)

  datatype Request = Request(verb: string, authorization: Option<string>, input: Input)

  /**
   * How the database behaves during the request: which bulk inserts it
   * throws on, whether a single statement throws, and whether the bulk
   * transaction's commit throws.
   */
  datatype Env = Env(refuses: Plan -> bool, statementFails: bool, commitFails: bool)

  /** PHP `str_replace(pat, '', s)`: every occurrence, scanning left to right, is removed. */
  function DropAll(s: string, pat: string): (r: string)
    requires pat != []
    ensures |r| <= |s|
    decreases |s|
  {
    if |s| < |pat| then s
    else if s[..|pat|] == pat then DropAll(s[|pat|..], pat)
    else [s[0]] + DropAll(s[1..], pat)
  }

  /** Text without an occurrence of `pat` passes through `DropAll` unchanged. */
  lemma {:induction false} DropAllNoOccurrence(s: string, pat: string)
    requires pat != []
    requires forall i: nat :: !OccursAt(s, pat, i)
    ensures DropAll(s, pat) == s
    decreases |s|
  {
    if |s| >= |pat| {
      assert !OccursAt(s, pat, 0);
      forall i: nat ensures !OccursAt(s[1..], pat, i) {
        if OccursAt(s[1..], pat, i) {
          assert s[1..][i..i + |pat|] == s[i + 1..i + 1 + |pat|];
          assert OccursAt(s, pat, i + 1);
        }
      }
      DropAllNoOccurrence(s[1..], pat);
    }
  }

  /** The token the endpoint authenticates with. */
  function TokenOf(q: Request): string
  {
    if q.authorization.Some? then DropAll(q.authorization.value, "Bearer ")
    else q.input.token.GetOr("")
  }

  /** A header `Bearer <t>` yields `t` itself whenever `t` holds no further "Bearer ". */
  lemma BearerHeader(q: Request, t: string)
    requires q.authorization == Some("Bearer " + t)
    requires forall i: nat :: !OccursAt(t, "Bearer ", i)
    ensures TokenOf(q) == t
  {
    var h := "Bearer " + t;
    assert h[..|"Bearer "|] == "Bearer " && h[|"Bearer "|..] == t;
    DropAllNoOccurrence(t, "Bearer ");
  }

  // ---- bulk_import ----

  /**
   * `bulkImportTransactions` as written: no field is checked, the table is
   * chosen by type, the duplicate query compares the stored amounts with
   * the signed `amount`, and the insert stores `abs(amount)`.
   */
  function PlanAsWritten(e: Entry): Plan
  {
    Insert(KindOf(e.kind), false, e.date, e.description, e.amount, Abs(e.amount), e.category)
  }

  /** The same with the duplicate query probing `abs(amount)`, the amount the insert stores. */
  function PlanOf(e: Entry): Plan
  {
    Insert(KindOf(e.kind), false, e.date, e.description, Abs(e.amount), Abs(e.amount), e.category)
  }

  /** The plans the endpoint runs, one per element, with the signed probe. */
  function Plans(entries: seq<Entry>): (plans: seq<Plan>)
    ensures |plans| == |entries|
    ensures forall k :: 0 <= k < |entries| ==> plans[k] == PlanAsWritten(entries[k])
  {
    seq(|entries|, k requires 0 <= k < |entries| => PlanAsWritten(entries[k]))
  }

  /** The plans with the corrected probe. */
  function CorrectedPlans(entries: seq<Entry>): (plans: seq<Plan>)
    ensures |plans| == |entries|
    ensures forall k :: 0 <= k < |entries| ==> plans[k] == PlanOf(entries[k])
  {
    seq(|entries|, k requires 0 <= k < |entries| => PlanOf(entries[k]))
  }

  /** The two probes differ only on negative amounts: a batch without one runs the same plans either way. */
  lemma PlansAgree(entries: seq<Entry>)
    ensures (forall k :: 0 <= k < |entries| ==> entries[k].amount >= 0.0) <==> Plans(entries) == CorrectedPlans(entries)
  {
    if Plans(entries) == CorrectedPlans(entries) {
      forall k | 0 <= k < |entries| ensures entries[k].amount >= 0.0 {
        assert Plans(entries)[k] == CorrectedPlans(entries)[k];
      }
    }
  }

  const EmptyLedger := Ledger(Table([], 1), Table([], 1))

  /** An expense posted with a negative amount, and a database that refuses nothing. */
  const NegativeRent := Entry("2024-01-15", "Rent", -10.0, Some("expense"), None)
  const NoRefusals := Env((p: Plan) => false, false, false)

  /** Posted to empty tables, the expense is stored as its absolute value. */
  lemma FirstPostStores()
    ensures BulkSpec(Some([NegativeRent]), EmptyLedger, 7, NoRefusals).tables
      == EmptyLedger.Insert(Expenses, 7, 10.0, "Rent", None, "2024-01-15")
  {
    var p := PlanAsWritten(NegativeRent);
    assert Plans([NegativeRent]) == [p];
    assert Searched(EmptyLedger, p) == [];
    assert !NoRefusals.refuses(p);
    assert Classify(EmptyLedger, 7, p, false) == Imported;
    var first := EmptyLedger.Insert(Expenses, 7, 10.0, "Rent", None, "2024-01-15");
    assert Run(EmptyLedger, NoCounts, 7, [p], 0, NoRefusals.refuses) == Batch(first, Counts(1, 0, 0));
  }

  /** Posted again, the probe -10 is not within 0.01 of the stored 10, so the expense is imported once more. */
  lemma SecondPostImports()
    ensures var first := EmptyLedger.Insert(Expenses, 7, 10.0, "Rent", None, "2024-01-15");
      BulkSpec(Some([NegativeRent]), first, 7, NoRefusals).reply == Counted(Counts(1, 0, 0))
  {
    var p := PlanAsWritten(NegativeRent);
    assert Plans([NegativeRent]) == [p];
    var first := EmptyLedger.Insert(Expenses, 7, 10.0, "Rent", None, "2024-01-15");
    var stored := first.expenses.rows;
    assert Searched(first, p) == stored == [Row(1, 7, 10.0, "Rent", None, "2024-01-15")];
    assert !Matches(stored[0], 7, p);
    assert MatchCount(stored, 7, p) == 0 by {
      assert stored[..0] == [];
    }
    assert !NoRefusals.refuses(p);
    assert Classify(first, 7, p, false) == Imported;
    var second := first.Insert(Expenses, 7, 10.0, "Rent", None, "2024-01-15");
    assert Run(first, NoCounts, 7, [p], 0, NoRefusals.refuses) == Batch(second, Counts(1, 0, 0));
  }

  /**
   * The plan as written misses its own row: an expense posted with a
   * negative amount is stored as its absolute value, so posting the same
   * batch again compares -10 with 10 and imports the expense a second time.
   */
  lemma SignedProbeReimports()
    ensures var first := BulkSpec(Some([NegativeRent]), EmptyLedger, 7, NoRefusals).tables;
      BulkSpec(Some([NegativeRent]), first, 7, NoRefusals).reply == Counted(Counts(1, 0, 0))
  {
    FirstPostStores();
    SecondPostImports();
  }

  /** With the probe corrected, a committed batch posted again imports nothing. */
  lemma ResubmitImportsNothing(l: Ledger, user: int, entries: seq<Entry>, refuses: Plan -> bool)
    ensures var first := Run(l, NoCounts, user, CorrectedPlans(entries), 0, refuses).tables;
      Run(first, NoCounts, user, CorrectedPlans(entries), 0, refuses).counts.imported == 0
      && Run(first, NoCounts, user, CorrectedPlans(entries), 0, refuses).tables == first
  {
    Resubmission(l, user, CorrectedPlans(entries), refuses);
  }

  /** As written, a committed batch without negative amounts posted again still imports nothing and changes nothing. */
  lemma ResubmitNonNegativeImportsNothing(l: Ledger, user: int, entries: seq<Entry>, env: Env)
    requires forall k :: 0 <= k < |entries| ==> entries[k].amount >= 0.0
    requires !env.commitFails
    ensures var first := BulkSpec(Some(entries), l, user, env).tables;
      BulkSpec(Some(entries), first, user, env).reply.Counted?
      && BulkSpec(Some(entries), first, user, env).reply.counts.imported == 0
      && BulkSpec(Some(entries), first, user, env).tables == first
  {
    PlansAgree(entries);
    Resubmission(l, user, Plans(entries), env.refuses);
  }

  /** `bulk_import` as written: the loop inside one transaction; any exception outside the per-row handler rolls it back. */
  function BulkSpec(transactions: Option<seq<Entry>>, l: Ledger, user: int, env: Env): Response
  {
    if env.commitFails then Response(Failure("Bulk import failed"), l)
    // `foreach` over a missing array runs no iteration
    else if transactions.None? then Response(Counted(NoCounts), l)
    else
      var b := Run(l, NoCounts, user, Plans(transactions.value), 0, env.refuses);
      Response(Counted(b.counts), b.tables)
  }

  // ---- single-row statements ----

  /** The `WHERE id = ? AND user_id = ?` of the update and the delete; a missing id (`NULL`) matches no row. */
  predicate Selected(r: Row, id: Option<int>, user: int)
  {
    id == Some(r.id) && r.user == user
  }

  /** `UPDATE … SET amount, description, category, date WHERE id = ? AND user_id = ?`. */
  function Updated(t: Table, id: Option<int>, user: int, input: Input): (u: Table)
    ensures |u.rows| == |t.rows| && u.next == t.next
  {
    Table(seq(|t.rows|, k requires 0 <= k < |t.rows| =>
      if Selected(t.rows[k], id, user)
      then t.rows[k].(amount := input.amount, description := input.description, category := input.category, date := input.date)
      else t.rows[k]), t.next)
  }

  /** `DELETE … WHERE id = ? AND user_id = ?`: the rows that do not match, in order. */
  function Deleted(rows: seq<Row>, id: Option<int>, user: int): (r: seq<Row>)
    ensures |r| <= |rows|
  {
    if rows == [] then []
    else (if Selected(rows[0], id, user) then [] else [rows[0]]) + Deleted(rows[1..], id, user)
  }

  /** The update rewrites exactly the matching row's fields and keeps its id and owner; every other row is untouched. */
  lemma UpdateScoped(t: Table, id: Option<int>, user: int, input: Input)
    ensures var u := Updated(t, id, user, input);
      forall k :: 0 <= k < |t.rows| ==>
        (Selected(t.rows[k], id, user) ==> u.rows[k] == Row(t.rows[k].id, user, input.amount, input.description, input.category, input.date))
        && (!Selected(t.rows[k], id, user) ==> u.rows[k] == t.rows[k])
  {
  }

  /** The delete removes exactly the matching rows: every other row, in particular every row of another user, stays. */
  lemma {:induction false} DeleteScoped(rows: seq<Row>, id: Option<int>, user: int)
    ensures forall r :: r in Deleted(rows, id, user) <==> r in rows && !Selected(r, id, user)
    ensures forall k :: 0 <= k < |rows| && rows[k].user != user ==> rows[k] in Deleted(rows, id, user)
  {
    if rows != [] {
      DeleteScoped(rows[1..], id, user);
      assert rows == [rows[0]] + rows[1..];
    }
  }

  function WithTable(l: Ledger, kind: Kind, t: Table): Ledger
  {
    if kind == Income then l.(income := t) else l.(expenses := t)
  }

  function TableOf(l: Ledger, kind: Kind): Table
  {
    if kind == Income then l.income else l.expenses
  }

  function UpdateSpec(input: Input, l: Ledger, user: int, fails: bool): Response
  {
    if fails then Response(Failure("Failed to update transaction"), l)
    else
      var kind := KindOf(input.kind);
      Response(Done("Transaction updated successfully"), WithTable(l, kind, Updated(TableOf(l, kind), input.id, user, input)))
  }

  function DeleteSpec(input: Input, l: Ledger, user: int, fails: bool): Response
  {
    if fails then Response(Failure("Failed to delete transaction"), l)
    else
      var kind := KindOf(input.kind);
      var t := TableOf(l, kind);
      Response(Done("Transaction deleted successfully"), WithTable(l, kind, Table(Deleted(t.rows, input.id, user), t.next)))
  }

  /** `addIncome` / `addExpense`: one insert of the body's fields, without any check. */
  function AddSpec(kind: Kind, input: Input, l: Ledger, user: int, fails: bool): Response
  {
    if fails then Response(Failure(if kind == Income then "Failed to add income" else "Failed to add expense"), l)
    else Response(Done(if kind == Income then "Income added successfully" else "Expense added successfully"),
                  l.Insert(kind, user, input.amount, input.description, input.category, input.date))
  }

  function PostSpec(input: Input, l: Ledger, user: int, env: Env): Response
  {
    match input.action
    case None => Response(Silent, l)
    case Some(a) =>
      if a == "add_income" then AddSpec(Income, input, l, user, env.statementFails)
      else if a == "add_expense" then AddSpec(Expenses, input, l, user, env.statementFails)
      else if a == "bulk_import" then BulkSpec(input.transactions, l, user, env)
      else Response(Failure("Invalid action"), l)
  }

  /** The whole endpoint. `OPTIONS` exits before the token check. */
  function HandleSpec(q: Request, users: seq<User>, l: Ledger, env: Env): Response
  {
    if q.verb == "OPTIONS" then Response(Silent, l)
    else match Authenticate(users, TokenOf(q))
      case Err(m) => Response(Failure(m), l)
      case Ok(user) =>
        if q.verb == "GET" then
          if env.statementFails then Response(Failure("Failed to fetch transactions"), l)
          else Response(Listing(Owned(l.income.rows, user), Owned(l.expenses.rows, user)), l)
        else if q.verb == "POST" then PostSpec(q.input, l, user, env)
        else if q.verb == "PUT" then UpdateSpec(q.input, l, user, env.statementFails)
        else if q.verb == "DELETE" then DeleteSpec(q.input, l, user, env.statementFails)
        else Response(Failure("Method not allowed"), l)
  }

  /** A request whose token is empty or unknown fails before any dispatch and changes nothing. */
  lemma UnauthenticatedChangesNothing(q: Request, users: seq<User>, l: Ledger, env: Env)
    requires q.verb != "OPTIONS"
    requires Empty(TokenOf(q)) || forall k :: 0 <= k < |users| ==> users[k].token != Some(TokenOf(q))
    ensures HandleSpec(q, users, l, env).tables == l
    ensures HandleSpec(q, users, l, env).reply.Failure?
  {
  }

  /** A POST with an action the switch does not know answers "Invalid action" and changes nothing. */
  lemma UnknownActionChangesNothing(q: Request, users: seq<User>, l: Ledger, env: Env)
    requires q.verb == "POST" && q.input.action.Some?
    requires q.input.action.value !in {"add_income", "add_expense", "bulk_import"}
    requires Authenticate(users, TokenOf(q)).Ok?
    ensures HandleSpec(q, users, l, env) == Response(Failure("Invalid action"), l)
  {
  }

  /** Every bulk entry is counted once, and a failed commit leaves the tables as they were. */
  lemma BulkCounts(entries: seq<Entry>, l: Ledger, user: int, env: Env)
    ensures !env.commitFails ==> BulkSpec(Some(entries), l, user, env).reply.counts.Sum() == |entries|
    ensures env.commitFails ==> BulkSpec(Some(entries), l, user, env).tables == l
  {
    if !env.commitFails {
      var plans := Plans(entries);
      RunCounts(l, NoCounts, user, plans, 0, env.refuses);
      var b := Run(l, NoCounts, user, plans, 0, env.refuses);
      assert BulkSpec(Some(entries), l, user, env).reply == Counted(b.counts);
    }
  }

  // ---- the endpoint as a program over the database ----

  method Bulk(db: Database, user: int, transactions: Option<seq<Entry>>, env: Env) returns (reply: Reply)
    modifies db`income, db`expenses
    ensures Response(reply, db.Tables()) == BulkSpec(transactions, old(db.Tables()), user, env)
  {
    if env.commitFails {
      return Failure("Bulk import failed");
    }
    if transactions.None? {
      return Counted(NoCounts);
    }
    var c := RunPlans(db, user, Plans(transactions.value), env.refuses);
    reply := Counted(c);
  }

  method Post(db: Database, user: int, input: Input, env: Env) returns (reply: Reply)
    modifies db`income, db`expenses
    ensures Response(reply, db.Tables()) == PostSpec(input, old(db.Tables()), user, env)
  {
    if input.action.None? {
      return Silent;
    }
    var a := input.action.value;
    if a == "add_income" || a == "add_expense" {
      var kind := if a == "add_income" then Income else Expenses;
      if env.statementFails {
        reply := Failure(if kind == Income then "Failed to add income" else "Failed to add expense");
      } else {
        db.InsertRow(kind, user, input.amount, input.description, input.category, input.date);
        reply := Done(if kind == Income then "Income added successfully" else "Expense added successfully");
      }
    } else if a == "bulk_import" {
      reply := Bulk(db, user, input.transactions, env);
    } else {
      reply := Failure("Invalid action");
    }
  }

  method Handle(db: Database, q: Request, env: Env) returns (reply: Reply)
    modifies db`income, db`expenses
    ensures Response(reply, db.Tables()) == HandleSpec(q, db.users.rows, old(db.Tables()), env)
  {
    if q.verb == "OPTIONS" {
      return Silent;
    }
    var auth := Authenticate(db.users.rows, TokenOf(q));
    if auth.Err? {
      return Failure(auth.error);
    }
    var user := auth.value;
    if q.verb == "GET" {
      if env.statementFails {
        reply := Failure("Failed to fetch transactions");
      } else {
        reply := Listing(Owned(db.income.rows, user), Owned(db.expenses.rows, user));
      }
    } else if q.verb == "POST" {
      reply := Post(db, user, q.input, env);
    } else if q.verb == "PUT" || q.verb == "DELETE" {
      var r := if q.verb == "PUT" then UpdateSpec(q.input, db.Tables(), user, env.statementFails)
               else DeleteSpec(q.input, db.Tables(), user, env.statementFails);
      db.SetLedger(r.tables);
      reply := r.reply;
    } else {
      reply := Failure("Method not allowed");
    }
  }
}
