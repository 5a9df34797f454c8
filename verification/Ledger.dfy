/** Sums over credit maps and over the notes not yet spent. */
module Ledger {
  import opened PoolSpec

  ghost function Total(m: map<nat, nat>): nat {
    if m == map[] then 0
    else
      var k :| k in m;
      m[k] + Total(m - {k})
  }

  /** Any key may be taken out first. */
  lemma {:induction false} TotalSplit(m: map<nat, nat>, k: nat)
    requires k in m
    ensures Total(m) == m[k] + Total(m - {k})
    decreases |m|
  {
    var j :| j in m && Total(m) == m[j] + Total(m - {j});
    if j == k {
    } else {
      TotalSplit(m - {j}, k);
      TotalSplit(m - {k}, j);
      assert m - {j} - {k} == m - {k} - {j};
    }
  }

  lemma TotalUpdate(m: map<nat, nat>, k: nat, v: nat)
    ensures Total(m[k := v]) + Credit(m, k) == Total(m) + v
  {
    TotalSplit(m[k := v], k);
    if k in m {
      TotalSplit(m, k);
      assert m[k := v] - {k} == m - {k};
    } else {
      assert m[k := v] - {k} == m;
    }
  }

  lemma CreditWithin(m: map<nat, nat>, k: nat)
    ensures Credit(m, k) <= Total(m)
  {
  }

  /** The commitment opening known for a leaf: the hidden part and the value. */
  datatype Opening = Opening(inner: nat, value: nat)

  /** Value of the leaves not in `spent`. */
  ghost function Unspent(leaves: seq<nat>, op: seq<Opening>, spent: set<nat>): nat
    requires |op| == |leaves|
  {
    if leaves == [] then 0
    else
      var n := |leaves| - 1;
      Unspent(leaves[..n], op[..n], spent) + (if leaves[n] in spent then 0 else op[n].value)
  }

  lemma UnspentAppend(leaves: seq<nat>, op: seq<Opening>, spent: set<nat>, cm: nat, o: Opening)
    requires |op| == |leaves|
    ensures Unspent(leaves + [cm], op + [o], spent)
         == Unspent(leaves, op, spent) + (if cm in spent then 0 else o.value)
  {
  }

  /** A mark on something that is no leaf changes nothing. */
  lemma {:induction false} UnspentOther(leaves: seq<nat>, op: seq<Opening>, spent: set<nat>, cm: nat)
    requires |op| == |leaves| && cm !in leaves
    ensures Unspent(leaves, op, spent + {cm}) == Unspent(leaves, op, spent)
  {
    if leaves == [] {
    } else {
      var n := |leaves| - 1;
      assert leaves[n] in leaves;
      UnspentOther(leaves[..n], op[..n], spent, cm);
    }
  }

  /** Spending one leaf takes its value out once. */
  lemma {:induction false} UnspentSpend(leaves: seq<nat>, op: seq<Opening>, spent: set<nat>, i: nat)
    requires |op| == |leaves| && i < |leaves| && leaves[i] !in spent
    requires forall j: nat, k: nat | j < k < |leaves| :: leaves[j] != leaves[k]
    ensures Unspent(leaves, op, spent) == Unspent(leaves, op, spent + {leaves[i]}) + op[i].value
  {
    var n := |leaves| - 1;
    if i == n {
      assert leaves[n] !in leaves[..n];
      UnspentOther(leaves[..n], op[..n], spent, leaves[n]);
    } else {
      UnspentSpend(leaves[..n], op[..n], spent, i);
    }
  }
}
