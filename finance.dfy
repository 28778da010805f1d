/**
 * The records kept in the browser's `financialData` store and in the server
 * tables: dated income and expense transactions and per-category budgets.
 * Amounts are real numbers (JavaScript numbers and PHP floats without
 * rounding error).
 */
module Finance {
  datatype Transaction = Transaction(id: int, amount: real, description: string, category: string, date: string)

  datatype Budget = Budget(id: int, category: string, amount: real, period: string, createdAt: string)

  datatype FinancialData = FinancialData(income: seq<Transaction>, expenses: seq<Transaction>, budgets: seq<Budget>)

  /** `abs` / `Math.abs` / SQL `ABS`. */
  function Abs(x: real): (r: real)
    ensures r >= 0.0 && (r == x || r == -x)
  {
    if x >= 0.0 then x else -x
  }

  function Total(items: seq<Transaction>): real
  {
    if items == [] then 0.0 else items[0].amount + Total(items[1..])
  }

  lemma {:induction false} TotalConcat(a: seq<Transaction>, b: seq<Transaction>)
    ensures Total(a + b) == Total(a) + Total(b)
  {
    if a != [] {
      assert (a + b)[1..] == a[1..] + b;
      TotalConcat(a[1..], b);
    } else {
      assert a + b == b;
    }
  }

  lemma {:induction false} TotalNonNegative(items: seq<Transaction>)
    requires forall t :: t in items ==> t.amount >= 0.0
    ensures Total(items) >= 0.0
  {
    if items != [] {
      TotalNonNegative(items[1..]);
    }
  }
}
