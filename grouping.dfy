/**
 * The per-category totals that js/ai-analysis.js and js/dashboard.js build
 * with `totals[t.category] = (totals[t.category] || 0) + t.amount`: an
 * object used as a dictionary, modelled as an association list in key
 * insertion order.
 */
module Grouping {
  import opened Finance

  /** Category keys with their running totals, in the order the keys were first seen. */
  type Totals = seq<(string, real)>

  /** The keys present, `Object.keys(totals)` as a set. */
  function Keys(g: Totals): set<string>
  {
    if g == [] then {} else {g[0].0} + Keys(g[1..])
  }

  predicate DistinctKeys(g: Totals)
  {
    g == [] || (g[0].0 !in Keys(g[1..]) && DistinctKeys(g[1..]))
  }

  /** `totals[key] || 0`. */
  function ValueOr0(g: Totals, key: string): real
  {
    if g == [] then 0.0 else if g[0].0 == key then g[0].1 else ValueOr0(g[1..], key)
  }

  /** Adds `amount` to the entry of `key`, creating it at the end when it is new. */
  function Bump(g: Totals, key: string, amount: real): Totals
  {
    if g == [] then [(key, amount)]
    else if g[0].0 == key then [(key, g[0].1 + amount)] + g[1..]
    else [g[0]] + Bump(g[1..], key, amount)
  }

  /** The `forEach` over the transactions. */
  function ByCategory(xs: seq<Transaction>): Totals
  {
    if xs == [] then [] else Bump(ByCategory(xs[..|xs| - 1]), xs[|xs| - 1].category, xs[|xs| - 1].amount)
  }

  /** `Object.values(totals).reduce((sum, val) => sum + val, 0)`. */
  function Sum(g: Totals): real
  {
    if g == [] then 0.0 else g[0].1 + Sum(g[1..])
  }

  /** The independent reference: the amounts of the transactions filed under `key`. */
  function CategoryTotal(xs: seq<Transaction>, key: string): real
  {
    if xs == [] then 0.0
    else CategoryTotal(xs[..|xs| - 1], key) + (if xs[|xs| - 1].category == key then xs[|xs| - 1].amount else 0.0)
  }

  lemma {:induction false} BumpKeys(g: Totals, key: string, amount: real)
    ensures Keys(Bump(g, key, amount)) == Keys(g) + {key}
    ensures |Bump(g, key, amount)| == |g| + (if key in Keys(g) then 0 else 1)
  {
    if g != [] && g[0].0 != key {
      BumpKeys(g[1..], key, amount);
    }
  }

  lemma {:induction false} BumpDistinct(g: Totals, key: string, amount: real)
    requires DistinctKeys(g)
    ensures DistinctKeys(Bump(g, key, amount))
  {
    if g != [] && g[0].0 != key {
      BumpDistinct(g[1..], key, amount);
      BumpKeys(g[1..], key, amount);
    }
  }

  lemma {:induction false} BumpSum(g: Totals, key: string, amount: real)
    ensures Sum(Bump(g, key, amount)) == Sum(g) + amount
  {
    if g != [] && g[0].0 != key {
      BumpSum(g[1..], key, amount);
    }
  }

  lemma {:induction false} BumpValue(g: Totals, key: string, amount: real, k: string)
    ensures ValueOr0(Bump(g, key, amount), k) == ValueOr0(g, k) + (if k == key then amount else 0.0)
  {
    if g != [] && g[0].0 != key {
      BumpValue(g[1..], key, amount, k);
    }
  }

  /**
   * The grouping has one entry per distinct category, every entry's value is
   * the total of that category's transactions, and the values add up to the
   * total of all transactions.
   */
  lemma {:induction false} ByCategorySpec(xs: seq<Transaction>)
    ensures DistinctKeys(ByCategory(xs))
    ensures forall k :: k in Keys(ByCategory(xs)) <==> exists i :: 0 <= i < |xs| && xs[i].category == k
    ensures forall k :: ValueOr0(ByCategory(xs), k) == CategoryTotal(xs, k)
    ensures Sum(ByCategory(xs)) == Total(xs)
    ensures |ByCategory(xs)| <= |xs|
  {
    if xs != [] {
      var init := xs[..|xs| - 1];
      var last := xs[|xs| - 1];
      var g := ByCategory(init);
      ByCategorySpec(init);
      BumpKeys(g, last.category, last.amount);
      BumpDistinct(g, last.category, last.amount);
      BumpSum(g, last.category, last.amount);
      forall k ensures ValueOr0(ByCategory(xs), k) == CategoryTotal(xs, k) {
        BumpValue(g, last.category, last.amount, k);
      }
      TotalConcat(init, [last]);
      assert xs == init + [last];
      forall k ensures k in Keys(ByCategory(xs)) <==> exists i :: 0 <= i < |xs| && xs[i].category == k {
        if exists i :: 0 <= i < |xs| && xs[i].category == k {
          var i :| 0 <= i < |xs| && xs[i].category == k;
          if i < |init| {
            assert init[i].category == k;
          }
        }
        if k in Keys(g) {
          var i :| 0 <= i < |init| && init[i].category == k;
          assert xs[i].category == k;
        }
      }
    }
  }

  /** With no negative amounts every category total is at most the overall total. */
  lemma {:induction false} CategoryWithinTotal(xs: seq<Transaction>, key: string)
    requires forall i :: 0 <= i < |xs| ==> xs[i].amount >= 0.0
    ensures 0.0 <= CategoryTotal(xs, key) <= Total(xs)
  {
    if xs != [] {
      var init := xs[..|xs| - 1];
      CategoryWithinTotal(init, key);
      TotalConcat(init, [xs[|xs| - 1]]);
      assert xs == init + [xs[|xs| - 1]];
    }
  }

  /** The value of a present key is the value stored in its entry, and the keys are those of the entries. */
  lemma {:induction false} ValueAt(g: Totals, i: nat)
    requires DistinctKeys(g)
    requires i < |g|
    ensures g[i].0 in Keys(g)
    ensures ValueOr0(g, g[i].0) == g[i].1
  {
    if i > 0 {
      ValueAt(g[1..], i - 1);
    }
  }
}
