/** The per-combination row sampler of csv_utils.py: rows are skipped by a
    filter, counted per combination key, and kept only while the running
    count for their key is inside a window. */
module RowReducer {

  /** Number of rows of `rows` that the filter lets through and whose
      combination key is `key`. */
  function CountKey<R, K(==)>(rows: seq<R>, filter: R -> bool, comboFn: R -> K, key: K): nat
  {
    if rows == [] then 0
    else
      var last := rows[|rows| - 1];
      CountKey(rows[..|rows| - 1], filter, comboFn, key)
        + (if !filter(last) && comboFn(last) == key then 1 else 0)
  }

  /** The occurrence number of row `i` for its own key: 1 for the first
      unfiltered row with that key, 2 for the second, and so on. */
  function Occurrence<R, K(==)>(rows: seq<R>, filter: R -> bool, comboFn: R -> K, i: nat): nat
    requires i < |rows|
  {
    CountKey(rows[..i + 1], filter, comboFn, comboFn(rows[i]))
  }

  /** Row `i` survives: it passes the filter and its occurrence number k
      satisfies 2 <= k < limit (the first occurrence only primes the counter). */
  predicate Kept<R, K(==)>(rows: seq<R>, filter: R -> bool, limit: int, comboFn: R -> K, i: nat)
    requires i < |rows|
  {
    !filter(rows[i]) && 2 <= Occurrence(rows, filter, comboFn, i) < limit
  }

  /** The indices below `n` of the rows that survive, in increasing order. */
  function KeptIndices<R, K(==)>(rows: seq<R>, filter: R -> bool, limit: int, comboFn: R -> K, n: nat): (idx: seq<nat>)
    requires n <= |rows|
    ensures forall m :: 0 <= m < |idx| ==> idx[m] < n
    ensures forall a, b :: 0 <= a < b < |idx| ==> idx[a] < idx[b]
    ensures forall i :: 0 <= i < n ==> (i in idx <==> Kept(rows, filter, limit, comboFn, i))
  {
    if n == 0 then []
    else
      KeptIndices(rows, filter, limit, comboFn, n - 1)
        + (if Kept(rows, filter, limit, comboFn, n - 1) then [n - 1] else [])
  }

  /** The rows at the given indices, in the order of the indices. */
  function Select<R>(rows: seq<R>, idx: seq<nat>): seq<R>
    requires forall m :: 0 <= m < |idx| ==> idx[m] < |rows|
  {
    seq(|idx|, m requires 0 <= m < |idx| => rows[idx[m]])
  }

  /** What the reducer returns: the surviving rows, as an order-preserving
      subsequence of the input. */
  function Reduced<R, K(==)>(rows: seq<R>, filter: R -> bool, limit: int, comboFn: R -> K): seq<R>
  {
    Select(rows, KeptIndices(rows, filter, limit, comboFn, |rows|))
  }

  /** Number of elements of `s` whose key is `key` (no filter). */
  function Occurrences<R, K(==)>(s: seq<R>, comboFn: R -> K, key: K): nat
  {
    if s == [] then 0
    else Occurrences(s[..|s| - 1], comboFn, key) + (if comboFn(s[|s| - 1]) == key then 1 else 0)
  }

  /** How many rows of one key survive when `count` unfiltered rows carry it:
      occurrence numbers 2 .. min(count, limit - 1). */
  function Quota(count: nat, limit: int): nat
  {
    var top := if count < limit - 1 then count else limit - 1;
    if top < 2 then 0 else top - 1
  }

  /** One more row: the counter of its key grows by one when it passes the filter. */
  lemma CountKeyStep<R, K>(rows: seq<R>, filter: R -> bool, comboFn: R -> K, i: nat, key: K)
    requires i < |rows|
    ensures CountKey(rows[..i + 1], filter, comboFn, key)
         == CountKey(rows[..i], filter, comboFn, key) + (if !filter(rows[i]) && comboFn(rows[i]) == key then 1 else 0)
  {
    assert rows[..i + 1][..i] == rows[..i];
  }

  lemma SelectAppend<R>(rows: seq<R>, idx: seq<nat>, i: nat)
    requires forall m :: 0 <= m < |idx| ==> idx[m] < |rows|
    requires i < |rows|
    ensures Select(rows, idx + [i]) == Select(rows, idx) + [rows[i]]
  {
  }

  /** reduce_rows: a counter per combination key and an output list, both
      updated in one pass over the rows. */
  method ReduceRows<R, K(==)>(transactions: seq<R>, filter: R -> bool, limitUniqueCombinations: int, comboFn: R -> K)
    returns (reducedTransactions: seq<R>)
    ensures reducedTransactions == Reduced(transactions, filter, limitUniqueCombinations, comboFn)
    ensures forall x :: x in reducedTransactions ==> !filter(x)
  {
    var uniqueCombinationsTimes: map<K, nat> := map[];
    reducedTransactions := [];
    for i := 0 to |transactions|
      invariant reducedTransactions
        == Select(transactions, KeptIndices(transactions, filter, limitUniqueCombinations, comboFn, i))
      invariant forall c :: c in uniqueCombinationsTimes <==> CountKey(transactions[..i], filter, comboFn, c) > 0
      invariant forall c :: c in uniqueCombinationsTimes ==>
                  uniqueCombinationsTimes[c] == CountKey(transactions[..i], filter, comboFn, c)
    {
      var t := transactions[i];
      ghost var before := KeptIndices(transactions, filter, limitUniqueCombinations, comboFn, i);
      ghost var after := KeptIndices(transactions, filter, limitUniqueCombinations, comboFn, i + 1);
      forall c ensures CountKey(transactions[..i + 1], filter, comboFn, c)
                    == CountKey(transactions[..i], filter, comboFn, c) + (if !filter(t) && comboFn(t) == c then 1 else 0)
      {
        CountKeyStep(transactions, filter, comboFn, i, c);
      }
      if filter(t) {
        assert after == before;
        continue;
      }
      var combo := comboFn(t);
      var times := if combo in uniqueCombinationsTimes then uniqueCombinationsTimes[combo] else 0;
      assert times == CountKey(transactions[..i], filter, comboFn, combo);
      assert Occurrence(transactions, filter, comboFn, i) == times + 1;
      if times == 0 {
        uniqueCombinationsTimes := uniqueCombinationsTimes[combo := 1];
        assert after == before;
      } else {
        times := times + 1;
        uniqueCombinationsTimes := uniqueCombinationsTimes[combo := times];
        if times < limitUniqueCombinations {
          assert after == before + [i];
          SelectAppend(transactions, before, i);
          reducedTransactions := reducedTransactions + [t];
        } else {
          assert after == before;
        }
      }
    }
    forall x | x in reducedTransactions ensures !filter(x) {
      var idx := KeptIndices(transactions, filter, limitUniqueCombinations, comboFn, |transactions|);
      var m :| 0 <= m < |reducedTransactions| && reducedTransactions[m] == x;
      assert idx[m] in idx;
    }
  }

  lemma OccurrencesAppend<R, K>(s: seq<R>, comboFn: R -> K, key: K, x: R)
    ensures Occurrences(s + [x], comboFn, key) == Occurrences(s, comboFn, key) + (if comboFn(x) == key then 1 else 0)
  {
    assert (s + [x])[..|s|] == s;
  }

  /** The quota grows by one exactly when the new occurrence number is in the window. */
  lemma QuotaStep(count: nat, limit: int)
    ensures Quota(count + 1, limit) == Quota(count, limit) + (if 2 <= count + 1 < limit then 1 else 0)
  {
  }

  /** Each key keeps exactly Quota(n, limit) rows, where n is the number of
      unfiltered rows carrying it. */
  lemma {:induction false} KeptPerKey<R, K>(rows: seq<R>, filter: R -> bool, limit: int, comboFn: R -> K, key: K, n: nat)
    requires n <= |rows|
    ensures Occurrences(Select(rows, KeptIndices(rows, filter, limit, comboFn, n)), comboFn, key)
         == Quota(CountKey(rows[..n], filter, comboFn, key), limit)
  {
    if n > 0 {
      KeptPerKey(rows, filter, limit, comboFn, key, n - 1);
      KeptPerKeyStep(rows, filter, limit, comboFn, key, n - 1);
    }
  }

  /** Row i changes the number of kept rows of `key` exactly as it changes the quota. */
  lemma KeptPerKeyStep<R, K>(rows: seq<R>, filter: R -> bool, limit: int, comboFn: R -> K, key: K, i: nat)
    requires i < |rows|
    requires Occurrences(Select(rows, KeptIndices(rows, filter, limit, comboFn, i)), comboFn, key)
          == Quota(CountKey(rows[..i], filter, comboFn, key), limit)
    ensures Occurrences(Select(rows, KeptIndices(rows, filter, limit, comboFn, i + 1)), comboFn, key)
         == Quota(CountKey(rows[..i + 1], filter, comboFn, key), limit)
  {
    var prev := KeptIndices(rows, filter, limit, comboFn, i);
    var cur := KeptIndices(rows, filter, limit, comboFn, i + 1);
    var before := CountKey(rows[..i], filter, comboFn, key);
    var after := CountKey(rows[..i + 1], filter, comboFn, key);
    var matches := !filter(rows[i]) && comboFn(rows[i]) == key;
    var kept := Kept(rows, filter, limit, comboFn, i);
    assert after == before + (if matches then 1 else 0) by {
      CountKeyStep(rows, filter, comboFn, i, key);
    }
    assert cur == prev + (if kept then [i] else []);
    if matches {
      assert kept <==> 2 <= before + 1 < limit by {
        assert Occurrence(rows, filter, comboFn, i) == after;
      }
      QuotaStep(before, limit);
    }
    if kept {
      assert !filter(rows[i]);
      assert cur == prev + [i];
      SelectAppend(rows, prev, i);
      OccurrencesAppend(Select(rows, prev), comboFn, key, rows[i]);
    } else {
      assert cur == prev;
    }
  }

  /** At most max(0, limit - 2) rows of any one key survive. */
  lemma AtMostQuotaPerKey<R, K>(rows: seq<R>, filter: R -> bool, limit: int, comboFn: R -> K, key: K)
    ensures Occurrences(Reduced(rows, filter, limit, comboFn), comboFn, key) <= if limit < 2 then 0 else limit - 2
  {
    KeptPerKey(rows, filter, limit, comboFn, key, |rows|);
  }

  /** The first unfiltered row of every key is dropped. */
  lemma FirstOccurrenceDropped<R, K>(rows: seq<R>, filter: R -> bool, limit: int, comboFn: R -> K, i: nat)
    requires i < |rows| && !filter(rows[i])
    requires CountKey(rows[..i], filter, comboFn, comboFn(rows[i])) == 0
    ensures i !in KeptIndices(rows, filter, limit, comboFn, |rows|)
  {
    assert rows[..i + 1][..i] == rows[..i];
    assert Occurrence(rows, filter, comboFn, i) == 1;
  }

  /** A limit of 2 or less keeps no row below `n`. */
  lemma {:induction false} SmallLimitKeepsNothing<R, K>(rows: seq<R>, filter: R -> bool, limit: int, comboFn: R -> K, n: nat)
    requires limit <= 2 && n <= |rows|
    ensures KeptIndices(rows, filter, limit, comboFn, n) == []
  {
    if n > 0 {
      SmallLimitKeepsNothing(rows, filter, limit, comboFn, n - 1);
      assert !Kept(rows, filter, limit, comboFn, n - 1);
      assert KeptIndices(rows, filter, limit, comboFn, n) == KeptIndices(rows, filter, limit, comboFn, n - 1) + [];
    }
  }

  /** One row of the transactions CSV file, as the CSV reader yields it. */
  datatype TransactionRow = TransactionRow(
    productName: string,
    productCategory: string,
    flowIdSupplier: string,
    flowIdInternal: string,
    flowIdCustomer: string,
    orderValue: string)

  /** The filter used by write_reduced_transactions_to_csv: a row with any
      empty flow id is skipped. */
  predicate MissingFlowId(row: TransactionRow)
  {
    row.flowIdSupplier == "" || row.flowIdInternal == "" || row.flowIdCustomer == ""
  }

  /** The combination key used by write_reduced_transactions_to_csv. */
  function FlowCombination(row: TransactionRow): (string, string, string)
  {
    (row.flowIdSupplier, row.flowIdInternal, row.flowIdCustomer)
  }

  const CombinationLimit: int := 5

  /** The reduction step of write_reduced_transactions_to_csv (the CSV file
      it then writes is not modelled). */
  method ReduceTransactionRows(transactions: seq<TransactionRow>) returns (reducedRows: seq<TransactionRow>)
    ensures reducedRows == Reduced(transactions, MissingFlowId, CombinationLimit, FlowCombination)
    ensures forall row :: row in reducedRows ==>
              row.flowIdSupplier != "" && row.flowIdInternal != "" && row.flowIdCustomer != ""
    ensures forall key :: Occurrences(reducedRows, FlowCombination, key) <= 3
  {
    reducedRows := ReduceRows(transactions, MissingFlowId, CombinationLimit, FlowCombination);
    forall key ensures Occurrences(reducedRows, FlowCombination, key) <= 3 {
      AtMostQuotaPerKey(transactions, MissingFlowId, CombinationLimit, FlowCombination, key);
    }
  }
}
