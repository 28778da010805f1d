/**
 * The duplicate-checking insert loop that the three server import paths
 * share. Each submitted transaction is first turned into a `Plan` by the
 * endpoint (which fields it needs, which table it goes to, which amount the
 * duplicate query compares against and which amount is stored); the loop
 * then counts it as an error, a duplicate or an import, in order, with
 * every later duplicate query seeing the rows inserted before it.
 */
module BulkImport {
  import opened Wrappers
  import opened Finance
  import opened Store

  /**
   * One submitted transaction as the loop sees it: `Invalid` when the
   * endpoint rejects it before querying, otherwise the duplicate query
   * (`probe` compared with the stored amounts of the `Searched` rows) and
   * the insert it guards.
   */
  datatype Plan =
    | Invalid
    | Insert(into: Kind, searchBoth: bool, date: string, description: string, probe: real, amount: real, category: Option<string>)

  /** The three counters every import path reports. */
  datatype Counts = Counts(imported: nat, duplicates: nat, errors: nat)
  {
    function Sum(): nat
    {
      imported + duplicates + errors
    }
  }

  const NoCounts := Counts(0, 0, 0)

  /** The rows the duplicate query scans: the target table, or both tables (`UNION ALL`). */
  function Searched(l: Ledger, p: Plan): seq<Row>
    requires p.Insert?
  {
    if p.searchBoth then l.income.rows + l.expenses.rows else l.Rows(p.into)
  }

  /** `user_id = ? AND date = ? AND description = ? AND ABS(amount - ?) < 0.01`. */
  predicate Matches(r: Row, user: int, p: Plan)
    requires p.Insert?
  {
    r.user == user && r.date == p.date && r.description == p.description && Abs(r.amount - p.probe) < 0.01
  }

  /** `COUNT(*)` of the duplicate query over `rows`. */
  function MatchCount(rows: seq<Row>, user: int, p: Plan): nat
    requires p.Insert?
  {
    if rows == [] then 0
    else MatchCount(rows[..|rows| - 1], user, p) + (if Matches(rows[|rows| - 1], user, p) then 1 else 0)
  }

  /** `COUNT(*) > 0` for the duplicate query. */
  predicate Duplicate(rows: seq<Row>, user: int, p: Plan)
    requires p.Insert?
  {
    MatchCount(rows, user, p) > 0
  }

  /** The query counts a row exactly when some stored row matches. */
  lemma {:induction false} DuplicateSpec(rows: seq<Row>, user: int, p: Plan)
    requires p.Insert?
    ensures Duplicate(rows, user, p) <==> exists r :: r in rows && Matches(r, user, p)
  {
    if rows != [] {
      var init := rows[..|rows| - 1];
      DuplicateSpec(init, user, p);
      assert rows == init + [rows[|rows| - 1]];
      if MatchCount(init, user, p) > 0 {
        var r :| r in init && Matches(r, user, p);
        assert r in rows;
      }
    }
  }

  datatype Outcome = Imported | Duplicated | Failed

  /**
   * The branch one plan takes against the current tables; `refused` is the
   * database throwing on the insert, which the per-row handler counts as an
   * error.
   */
  function Classify(l: Ledger, user: int, p: Plan, refused: bool): (o: Outcome)
    ensures o == Imported <==> p.Insert? && !Duplicate(Searched(l, p), user, p) && !refused
    ensures o == Duplicated <==> p.Insert? && Duplicate(Searched(l, p), user, p)
  {
    if p.Invalid? then Failed
    else if Duplicate(Searched(l, p), user, p) then Duplicated
    else if refused then Failed
    else Imported
  }

  /** The tables after one plan. */
  function Apply(l: Ledger, user: int, p: Plan, refused: bool): Ledger
  {
    if Classify(l, user, p, refused) == Imported then l.Insert(p.into, user, p.amount, p.description, p.category, p.date)
    else l
  }

  /** The counters after one plan. */
  function Tally(c: Counts, o: Outcome): Counts
  {
    match o
    case Imported => c.(imported := c.imported + 1)
    case Duplicated => c.(duplicates := c.duplicates + 1)
    case Failed => c.(errors := c.errors + 1)
  }

  /** The tables and the counters while a batch is imported. */
  datatype Batch = Batch(tables: Ledger, counts: Counts)

  /** The rest of the loop from plan `i` on: the tables and counters after those plans, in order. */
  function Run(l: Ledger, c: Counts, user: int, plans: seq<Plan>, i: nat, refuses: Plan -> bool): Batch
    requires i <= |plans|
    decreases |plans| - i
  {
    if i == |plans| then Batch(l, c)
    else
      var p := plans[i];
      Run(Apply(l, user, p, refuses(p)), Tally(c, Classify(l, user, p, refuses(p))), user, plans, i + 1, refuses)
  }

  /** Every plan is counted exactly once: imported + duplicates + errors grows by the number of plans. */
  lemma {:induction false} RunCounts(l: Ledger, c: Counts, user: int, plans: seq<Plan>, i: nat, refuses: Plan -> bool)
    requires i <= |plans|
    ensures Run(l, c, user, plans, i, refuses).counts.Sum() == c.Sum() + (|plans| - i)
    decreases |plans| - i
  {
    if i < |plans| {
      var p := plans[i];
      RunCounts(Apply(l, user, p, refuses(p)), Tally(c, Classify(l, user, p, refuses(p))), user, plans, i + 1, refuses);
    }
  }

  /** The rows of `b` extend those of `a` with rows of `user` only. */
  predicate Extends(a: Table, b: Table, user: int)
  {
    |a.rows| <= |b.rows| && b.rows[..|a.rows|] == a.rows
    && forall k :: |a.rows| <= k < |b.rows| ==> b.rows[k].user == user
  }

  lemma ExtendsTransitive(a: Table, b: Table, c: Table, user: int)
    requires Extends(a, b, user) && Extends(b, c, user)
    ensures Extends(a, c, user)
  {
    assert c.rows[..|a.rows|] == c.rows[..|b.rows|][..|a.rows|];
  }

  /**
   * The loop only appends: no stored row changes or disappears, every new
   * row belongs to the importing user, and exactly one row is added per
   * import counted.
   */
  lemma {:induction false} RunAppends(l: Ledger, c: Counts, user: int, plans: seq<Plan>, i: nat, refuses: Plan -> bool)
    requires i <= |plans|
    ensures var r, d := Run(l, c, user, plans, i, refuses).tables, Run(l, c, user, plans, i, refuses).counts;
      Extends(l.income, r.income, user) && Extends(l.expenses, r.expenses, user)
      && d.imported >= c.imported
      && |r.income.rows| + |r.expenses.rows| == |l.income.rows| + |l.expenses.rows| + (d.imported - c.imported)
    decreases |plans| - i
  {
    if i < |plans| {
      var p := plans[i];
      var l' := Apply(l, user, p, refuses(p));
      var c' := Tally(c, Classify(l, user, p, refuses(p)));
      RunAppends(l', c', user, plans, i + 1, refuses);
      var r := Run(l', c', user, plans, i + 1, refuses).tables;
      if Classify(l, user, p, refuses(p)) == Imported {
        if p.into == Income {
          assert l'.income.rows[..|l.income.rows|] == l.income.rows;
          ExtendsTransitive(l.income, l'.income, r.income, user);
        } else {
          assert l'.expenses.rows[..|l.expenses.rows|] == l.expenses.rows;
          ExtendsTransitive(l.expenses, l'.expenses, r.expenses, user);
        }
      }
    }
  }

  /** Every amount a plan would store is non-negative. */
  predicate StoresNonNegative(plans: seq<Plan>)
  {
    forall k :: 0 <= k < |plans| && plans[k].Insert? ==> plans[k].amount >= 0.0
  }

  predicate NonNegativeRows(t: Table)
  {
    forall k :: 0 <= k < |t.rows| ==> t.rows[k].amount >= 0.0
  }

  /** When every plan stores a non-negative amount, tables without negative amounts keep none. */
  lemma {:induction false} RunKeepsNonNegative(l: Ledger, c: Counts, user: int, plans: seq<Plan>, i: nat, refuses: Plan -> bool)
    requires i <= |plans| && StoresNonNegative(plans)
    requires NonNegativeRows(l.income) && NonNegativeRows(l.expenses)
    ensures NonNegativeRows(Run(l, c, user, plans, i, refuses).tables.income)
    ensures NonNegativeRows(Run(l, c, user, plans, i, refuses).tables.expenses)
    decreases |plans| - i
  {
    if i < |plans| {
      var p := plans[i];
      var l' := Apply(l, user, p, refuses(p));
      assert NonNegativeRows(l'.income) && NonNegativeRows(l'.expenses) by {
        if Classify(l, user, p, refuses(p)) == Imported {
          assert p.amount >= 0.0;
        }
      }
      RunKeepsNonNegative(l', Tally(c, Classify(l, user, p, refuses(p))), user, plans, i + 1, refuses);
    }
  }

  /**
   * A plan is settled when the row it inserts would itself match its own
   * duplicate query: the stored amount is within 0.01 of the probe.
   */
  predicate Settled(p: Plan)
  {
    p.Insert? ==> Abs(p.amount - p.probe) < 0.01
  }

  /** The duplicate query of `p` finds a row in `l`. */
  predicate Found(l: Ledger, user: int, p: Plan)
  {
    p.Insert? && Duplicate(Searched(l, p), user, p)
  }

  /** A row found by a duplicate query is still found after any insert. */
  lemma FoundAfterInsert(l: Ledger, user: int, p: Plan, kind: Kind, u: int, amount: real, description: string, category: Option<string>, date: string)
    requires Found(l, user, p)
    ensures Found(l.Insert(kind, u, amount, description, category, date), user, p)
  {
    var l' := l.Insert(kind, u, amount, description, category, date);
    DuplicateSpec(Searched(l, p), user, p);
    DuplicateSpec(Searched(l', p), user, p);
    var r :| r in Searched(l, p) && Matches(r, user, p);
    assert r in Searched(l', p);
  }

  lemma FoundAfterApply(l: Ledger, user: int, p: Plan, q: Plan, refused: bool)
    requires Found(l, user, p)
    ensures Found(Apply(l, user, q, refused), user, p)
  {
    if Classify(l, user, q, refused) == Imported {
      FoundAfterInsert(l, user, p, q.into, user, q.amount, q.description, q.category, q.date);
    }
  }

  lemma {:induction false} FoundAfterRun(l: Ledger, c: Counts, user: int, p: Plan, plans: seq<Plan>, i: nat, refuses: Plan -> bool)
    requires i <= |plans| && Found(l, user, p)
    ensures Found(Run(l, c, user, plans, i, refuses).tables, user, p)
    decreases |plans| - i
  {
    if i < |plans| {
      var q := plans[i];
      FoundAfterApply(l, user, p, q, refuses(q));
      FoundAfterRun(Apply(l, user, q, refuses(q)), Tally(c, Classify(l, user, q, refuses(q))), user, p, plans, i + 1, refuses);
    }
  }

  /** After one settled plan that the database does not refuse, its duplicate query succeeds. */
  lemma FoundAfterOwnApply(l: Ledger, user: int, p: Plan, refused: bool)
    requires p.Insert? && Settled(p) && !refused
    ensures Found(Apply(l, user, p, refused), user, p)
  {
    if Classify(l, user, p, refused) == Imported {
      var l' := Apply(l, user, p, refused);
      var r := Row(if p.into == Income then l.income.next else l.expenses.next, user, p.amount, p.description, p.category, p.date);
      assert r in l'.Rows(p.into);
      assert r in Searched(l', p);
      assert Matches(r, user, p);
      DuplicateSpec(Searched(l', p), user, p);
    }
  }

  /** Every settled, unrefused plan of a finished run is found by its own duplicate query afterwards. */
  lemma {:induction false} RunLeavesFound(l: Ledger, c: Counts, user: int, plans: seq<Plan>, i: nat, refuses: Plan -> bool)
    requires i <= |plans|
    requires forall k :: i <= k < |plans| ==> Settled(plans[k])
    ensures forall k :: i <= k < |plans| && plans[k].Insert? && !refuses(plans[k]) ==>
      Found(Run(l, c, user, plans, i, refuses).tables, user, plans[k])
    decreases |plans| - i
  {
    if i < |plans| {
      var p := plans[i];
      var l' := Apply(l, user, p, refuses(p));
      var c' := Tally(c, Classify(l, user, p, refuses(p)));
      RunLeavesFound(l', c', user, plans, i + 1, refuses);
      if p.Insert? && !refuses(p) {
        FoundAfterOwnApply(l, user, p, refuses(p));
        FoundAfterRun(l', c', user, p, plans, i + 1, refuses);
      }
    }
  }

  /** When every plan's query already finds a row (or the plan cannot insert), a run imports nothing. */
  lemma {:induction false} RunImportsNothing(l: Ledger, c: Counts, user: int, plans: seq<Plan>, i: nat, refuses: Plan -> bool)
    requires i <= |plans|
    requires forall k :: i <= k < |plans| && plans[k].Insert? && !refuses(plans[k]) ==> Found(l, user, plans[k])
    ensures Run(l, c, user, plans, i, refuses) == Batch(l, Run(l, c, user, plans, i, refuses).counts)
    ensures Run(l, c, user, plans, i, refuses).counts.imported == c.imported
    decreases |plans| - i
  {
    if i < |plans| {
      var p := plans[i];
      assert Classify(l, user, p, refuses(p)) != Imported;
      RunImportsNothing(l, Tally(c, Classify(l, user, p, refuses(p))), user, plans, i + 1, refuses);
    }
  }

  /**
   * Re-submitting a batch of settled plans imports nothing the second time
   * and leaves the tables as the first run left them: every transaction is
   * then either a duplicate or an error.
   */
  lemma Resubmission(l: Ledger, user: int, plans: seq<Plan>, refuses: Plan -> bool)
    requires forall k :: 0 <= k < |plans| ==> Settled(plans[k])
    ensures var first := Run(l, NoCounts, user, plans, 0, refuses).tables;
      Run(first, NoCounts, user, plans, 0, refuses).counts.imported == 0
      && Run(first, NoCounts, user, plans, 0, refuses).tables == first
  {
    var first := Run(l, NoCounts, user, plans, 0, refuses).tables;
    RunLeavesFound(l, NoCounts, user, plans, 0, refuses);
    RunImportsNothing(first, NoCounts, user, plans, 0, refuses);
  }

  /** No row is inserted while the target table holds a match for it: each import passed its duplicate query. */
  lemma ImportedWasNew(l: Ledger, user: int, p: Plan, refused: bool)
    requires Apply(l, user, p, refused) != l
    ensures p.Insert? && !refused && !Duplicate(Searched(l, p), user, p)
  {
  }

  /**
   * The loop itself: one duplicate query per plan against the live tables,
   * an insert when there is no match and the database accepts the row, and
   * a counter for each branch.
   */
  method RunPlans(db: Database, user: int, plans: seq<Plan>, refuses: Plan -> bool) returns (c: Counts)
    modifies db`income, db`expenses
    ensures Batch(db.Tables(), c) == Run(old(db.Tables()), NoCounts, user, plans, 0, refuses)
  {
    c := NoCounts;
    ghost var goal := Run(db.Tables(), NoCounts, user, plans, 0, refuses);
    for i := 0 to |plans|
      invariant Run(db.Tables(), c, user, plans, i, refuses) == goal
    {
      c := ImportOne(db, user, plans[i], refuses(plans[i]), c);
    }
  }

  /** The body of the loop for one plan: its duplicate query, then the insert or a counter. */
  method ImportOne(db: Database, user: int, p: Plan, refused: bool, c: Counts) returns (d: Counts)
    modifies db`income, db`expenses
    ensures db.Tables() == Apply(old(db.Tables()), user, p, refused)
    ensures d == Tally(c, Classify(old(db.Tables()), user, p, refused))
  {
    if p.Invalid? {
      d := c.(errors := c.errors + 1);
    } else if Duplicate(Searched(db.Tables(), p), user, p) {
      d := c.(duplicates := c.duplicates + 1);
    } else if refused {
      d := c.(errors := c.errors + 1);
    } else {
      db.InsertRow(p.into, user, p.amount, p.description, p.category, p.date);
      d := c.(imported := c.imported + 1);
    }
  }
}
