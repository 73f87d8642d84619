/** A grouped sum of one amount column by one key column: one output row per key
    value present in the table, none for an absent key, each carrying the
    sum of its rows' amounts. SQL leaves the order of the groups open; the
    model produces them in one particular order and states every property
    independently of it. */
module Grouping {

  /** One row of a grouped result: the key and its `SUM`. */
  datatype Group = Group(key: string, total: int)

  /** Sum of all amounts of `rows`. */
  function Total<R>(rows: seq<R>, amount: R -> int): int {
    if |rows| == 0 then 0 else amount(rows[0]) + Total(rows[1..], amount)
  }

  /** Sum of the amounts of the rows whose key is `k` (0 when there are none). */
  function KeySum<R>(rows: seq<R>, key: R -> string, amount: R -> int, k: string): int {
    if |rows| == 0 then 0
    else (if key(rows[0]) == k then amount(rows[0]) else 0) + KeySum(rows[1..], key, amount, k)
  }

  /** The key values present in `rows`. */
  function RowKeys<R>(rows: seq<R>, key: R -> string): set<string> {
    set i | 0 <= i < |rows| :: key(rows[i])
  }

  /** The keys of a grouped result. */
  function GroupKeys(gs: seq<Group>): set<string> {
    set g | g in gs :: g.key
  }

  predicate DistinctKeys(gs: seq<Group>) {
    forall i, j :: 0 <= i < j < |gs| ==> gs[i].key != gs[j].key
  }

  // `GroupTotal` and `SumTotals` are `KeySum` and `Total` over the columns of
  // a grouped result (`GroupTotalIsKeySum`, `SumTotalsIsTotal`), written
  // first-order so that the proofs about `AddTo` need not go through
  // function-valued arguments.

  /** The columns of a grouped result, as arguments of the generic sums. */
  function GroupKey(g: Group): string { g.key }
  function GroupAmount(g: Group): int { g.total }

  /** Sum of the totals of the groups keyed `k`. */
  function GroupTotal(gs: seq<Group>, k: string): int {
    if |gs| == 0 then 0
    else (if gs[0].key == k then gs[0].total else 0) + GroupTotal(gs[1..], k)
  }

  /** Sum of the totals of all groups. */
  function SumTotals(gs: seq<Group>): int {
    if |gs| == 0 then 0 else gs[0].total + SumTotals(gs[1..])
  }

  /** Accounts one row of key `k` and amount `v` into the groups: added to the
      group of `k` when there is one, a new group otherwise. */
  function AddTo(gs: seq<Group>, k: string, v: int): (r: seq<Group>)
    requires DistinctKeys(gs)
    ensures DistinctKeys(r)
    ensures GroupKeys(r) == GroupKeys(gs) + {k}
    ensures forall j :: GroupTotal(r, j) == GroupTotal(gs, j) + (if j == k then v else 0)
    ensures SumTotals(r) == SumTotals(gs) + v
  {
    if |gs| == 0 then [Group(k, v)]
    else
      var g, tail := gs[0], gs[1..];
      assert gs == [g] + tail;
      ConsFacts(g, tail);
      if g.key == k then
        var h := Group(k, g.total + v);
        ConsFacts(h, tail);
        [h] + tail
      else
        var rest := AddTo(tail, k, v);
        ConsFacts(g, rest);
        [g] + rest
  }

  /** How the keys, distinctness and totals of `[g] + rest` follow from those
      of `rest`. */
  lemma ConsFacts(g: Group, rest: seq<Group>)
    ensures GroupKeys([g] + rest) == {g.key} + GroupKeys(rest)
    ensures DistinctKeys([g] + rest) <==> DistinctKeys(rest) && g.key !in GroupKeys(rest)
    ensures forall j :: GroupTotal([g] + rest, j) == (if g.key == j then g.total else 0) + GroupTotal(rest, j)
    ensures SumTotals([g] + rest) == g.total + SumTotals(rest)
  {
    var r := [g] + rest;
    assert r[1..] == rest;
    if DistinctKeys(r) {
      forall x | x in rest
        ensures x.key != g.key
      {
        var i :| 0 <= i < |rest| && rest[i] == x;
        assert r[0] == g && r[i + 1] == x;
        assert r[0].key != r[i + 1].key;
      }
    }
    if DistinctKeys(rest) && g.key !in GroupKeys(rest) {
      forall i, j | 0 <= i < j < |r|
        ensures r[i].key != r[j].key
      {
        if i == 0 {
          assert r[j] in rest;
        } else {
          assert r[i] == rest[i - 1] && r[j] == rest[j - 1];
        }
      }
    }
  }

  /** The grouped sum. */
  function GroupSum<R>(rows: seq<R>, key: R -> string, amount: R -> int): (r: seq<Group>)
    ensures DistinctKeys(r)
    ensures GroupKeys(r) == RowKeys(rows, key)
    ensures forall k :: GroupTotal(r, k) == KeySum(rows, key, amount, k)
    ensures SumTotals(r) == Total(rows, amount)
  {
    if |rows| == 0 then []
    else
      assert RowKeys(rows, key) == {key(rows[0])} + RowKeys(rows[1..], key);
      AddTo(GroupSum(rows[1..], key, amount), key(rows[0]), amount(rows[0]))
  }

  lemma {:induction false} GroupTotalIsKeySum(gs: seq<Group>, k: string)
    ensures GroupTotal(gs, k) == KeySum(gs, GroupKey, GroupAmount, k)
  {
    if |gs| > 0 {
      GroupTotalIsKeySum(gs[1..], k);
    }
  }

  lemma {:induction false} SumTotalsIsTotal(gs: seq<Group>)
    ensures SumTotals(gs) == Total(gs, GroupAmount)
  {
    if |gs| > 0 {
      SumTotalsIsTotal(gs[1..]);
    }
  }

  /** With distinct keys, a group's total is the total recorded for its key. */
  lemma {:induction false} GroupTotalAt(gs: seq<Group>, i: int)
    requires DistinctKeys(gs) && 0 <= i < |gs|
    ensures GroupTotal(gs, gs[i].key) == gs[i].total
  {
    if i == 0 {
      GroupTotalAbsent(gs[1..], gs[0].key);
    } else {
      GroupTotalAt(gs[1..], i - 1);
    }
  }

  /** A key without a group totals 0. */
  lemma {:induction false} GroupTotalAbsent(gs: seq<Group>, k: string)
    requires forall i :: 0 <= i < |gs| ==> gs[i].key != k
    ensures GroupTotal(gs, k) == 0
  {
    if |gs| > 0 {
      GroupTotalAbsent(gs[1..], k);
    }
  }

  /** Distinct keys: as many groups as key values. */
  lemma {:induction false} DistinctKeysCount(gs: seq<Group>)
    requires DistinctKeys(gs)
    ensures |GroupKeys(gs)| == |gs|
  {
    if |gs| > 0 {
      DistinctKeysCount(gs[1..]);
      assert GroupKeys(gs) == {gs[0].key} + GroupKeys(gs[1..]);
      assert gs[0].key !in GroupKeys(gs[1..]);
    }
  }

  /** What the grouped query returns: exactly one row per key present in the
      table (none for an absent key), each row's total the sum of the
      amounts of that key's rows, and the totals adding up to the sum of all
      amounts. */
  lemma GroupSumMeaning<R>(rows: seq<R>, key: R -> string, amount: R -> int)
    ensures var r := GroupSum(rows, key, amount);
      && DistinctKeys(r)
      && GroupKeys(r) == RowKeys(rows, key)
      && |r| == |RowKeys(rows, key)|
      && (forall i :: 0 <= i < |r| ==> r[i].total == KeySum(rows, key, amount, r[i].key))
      && SumTotals(r) == Total(rows, amount)
  {
    var r := GroupSum(rows, key, amount);
    DistinctKeysCount(r);
    forall i | 0 <= i < |r|
      ensures r[i].total == KeySum(rows, key, amount, r[i].key)
    {
      GroupTotalAt(r, i);
    }
  }
}
