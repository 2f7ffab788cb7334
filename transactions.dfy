/**
 * Transaction records as the GraphQL queries deliver them, and the
 * filter-by-type and sum-of-amounts operations the audit figures are
 * built from.
 */
module Transactions {
  /**
   * One transaction record. A missing `type` is carried as "" (both
   * `t.type === "up"` and `t.type || ""` treat it like the empty string);
   * `createdAt` is the timestamp as an integer number of milliseconds.
   */
  datatype Transaction = Transaction(txType: string, amount: nat, createdAt: int)

  /** `txs.filter((t) => t.type === tag)`. */
  function FilterType(txs: seq<Transaction>, tag: string): (r: seq<Transaction>)
    ensures |r| <= |txs|
    ensures forall k :: 0 <= k < |r| ==> r[k].txType == tag && r[k] in txs
    ensures forall t :: t in txs && t.txType == tag ==> t in r
  {
    if txs == [] then []
    else
      var init, last := txs[..|txs| - 1], txs[|txs| - 1];
      assert txs == init + [last];
      FilterType(init, tag) + (if last.txType == tag then [last] else [])
  }

  /**
   * The filter drops no record of the tag: each record of the tag occurs
   * in the result as often as in the input, and no other record occurs.
   */
  lemma {:induction false} FilterTypeCounts(txs: seq<Transaction>, tag: string)
    ensures forall t :: multiset(FilterType(txs, tag))[t] == if t.txType == tag then multiset(txs)[t] else 0
  {
    if txs != [] {
      var init, last := txs[..|txs| - 1], txs[|txs| - 1];
      assert txs == init + [last];
      FilterTypeCounts(init, tag);
      var tail := if last.txType == tag then [last] else [];
      assert FilterType(txs, tag) == FilterType(init, tag) + tail;
      assert multiset(FilterType(txs, tag)) == multiset(FilterType(init, tag)) + multiset(tail);
      assert multiset(txs) == multiset(init) + multiset{last};
    }
  }

  /** `txs.reduce((sum, t) => sum + t.amount, 0)`. */
  function Total(txs: seq<Transaction>): nat
  {
    if txs == [] then 0 else Total(txs[..|txs| - 1]) + txs[|txs| - 1].amount
  }

  /** The total of the records of one type. */
  function TypeTotal(txs: seq<Transaction>, tag: string): nat
  {
    Total(FilterType(txs, tag))
  }

  /** Extending the input by one record changes the type total by that record's amount, if of that type. */
  lemma TypeTotalSnoc(txs: seq<Transaction>, t: Transaction, tag: string)
    ensures TypeTotal(txs + [t], tag) == TypeTotal(txs, tag) + (if t.txType == tag then t.amount else 0)
  {
    var s := txs + [t];
    assert s[..|s| - 1] == txs && s[|s| - 1] == t;
    var f := FilterType(txs, tag);
    if t.txType == tag {
      assert FilterType(s, tag) == f + [t];
      assert (f + [t])[..|f|] == f;
    } else {
      assert FilterType(s, tag) == f;
    }
  }

  lemma {:induction false} TotalAppend(a: seq<Transaction>, b: seq<Transaction>)
    ensures Total(a + b) == Total(a) + Total(b)
  {
    if b == [] {
      assert a + b == a;
    } else {
      var init := b[..|b| - 1];
      assert (a + b)[..|a + b| - 1] == a + init;
      TotalAppend(a, init);
    }
  }

  /**
   * The filter keeps the order of the input: filtering a concatenation is
   * filtering each part, one after the other.
   */
  lemma {:induction false} FilterAppend(a: seq<Transaction>, b: seq<Transaction>, tag: string)
    ensures FilterType(a + b, tag) == FilterType(a, tag) + FilterType(b, tag)
  {
    if b == [] {
      assert a + b == a;
    } else {
      var init := b[..|b| - 1];
      assert (a + b)[..|a + b| - 1] == a + init;
      FilterAppend(a, init, tag);
    }
  }

  /** The total of a type over a concatenation is the sum of the totals over the parts. */
  lemma TypeTotalAppend(a: seq<Transaction>, b: seq<Transaction>, tag: string)
    ensures TypeTotal(a + b, tag) == TypeTotal(a, tag) + TypeTotal(b, tag)
  {
    FilterAppend(a, b, tag);
    TotalAppend(FilterType(a, tag), FilterType(b, tag));
  }

  /** Records of other types do not change a type total, wherever they stand. */
  lemma TypeTotalIgnoresOthers(a: seq<Transaction>, t: Transaction, b: seq<Transaction>, tag: string)
    requires t.txType != tag
    ensures TypeTotal(a + [t] + b, tag) == TypeTotal(a + b, tag)
  {
    TypeTotalAppend(a + [t], b, tag);
    TypeTotalSnoc(a, t, tag);
    TypeTotalAppend(a, b, tag);
  }

  /**
   * Two distinct tags partition the records: the two totals together
   * never exceed the total of all amounts, and equal it exactly when every
   * record carries one of the two tags.
   */
  lemma {:induction false} TwoTypeTotalsBound(txs: seq<Transaction>, up: string, down: string)
    requires up != down
    ensures TypeTotal(txs, up) + TypeTotal(txs, down) <= Total(txs)
    ensures (forall k :: 0 <= k < |txs| ==> txs[k].txType in {up, down}) ==>
              TypeTotal(txs, up) + TypeTotal(txs, down) == Total(txs)
  {
    if txs != [] {
      var init, last := txs[..|txs| - 1], txs[|txs| - 1];
      TwoTypeTotalsBound(init, up, down);
      assert init + [last] == txs;
      TypeTotalSnoc(init, last, up);
      TypeTotalSnoc(init, last, down);
      if forall k :: 0 <= k < |txs| ==> txs[k].txType in {up, down} {
        assert forall k :: 0 <= k < |init| ==> init[k] == txs[k];
      }
    }
  }
}
