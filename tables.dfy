/**
 * Scans over a keyed store whose keys are the identity values 1, 2, ... handed
 * out by the database. A derived query (`findByCodigo`, `findByBancoId`, ...)
 * is a scan with a row filter; rows come back in ascending key order.
 */
module Tables {
  import opened Wrappers

  /** The keys k, 1 <= k < n, of `m` whose row satisfies `keep`, in ascending order. */
  function Select<T>(m: map<int, T>, keep: T -> bool, n: int): (ks: seq<int>)
    ensures forall i :: 0 <= i < |ks| ==> 1 <= ks[i] < n && ks[i] in m && keep(m[ks[i]])
    ensures forall k :: 1 <= k < n && k in m && keep(m[k]) ==> k in ks
    ensures forall i, j :: 0 <= i < j < |ks| ==> ks[i] < ks[j]
    decreases n
  {
    if n <= 1 then []
    else Select(m, keep, n - 1) + (if n - 1 in m && keep(m[n - 1]) then [n - 1] else [])
  }

  /** The rows stored under the keys `ks`, in that order. */
  function Rows<T>(m: map<int, T>, ks: seq<int>): (r: seq<T>)
    requires forall i :: 0 <= i < |ks| ==> ks[i] in m
    ensures |r| == |ks|
    ensures forall i :: 0 <= i < |ks| ==> r[i] == m[ks[i]]
  {
    seq(|ks|, i requires 0 <= i < |ks| => m[ks[i]])
  }

  /** Every row stored under one of the keys `ks` is among `Rows(m, ks)`. */
  lemma RowsContainsKeys<T>(m: map<int, T>, ks: seq<int>)
    requires forall i :: 0 <= i < |ks| ==> ks[i] in m
    ensures forall k :: k in ks ==> m[k] in Rows(m, ks)
  {
    var r := Rows(m, ks);
    forall k | k in ks ensures m[k] in r {
      var i :| 0 <= i < |ks| && ks[i] == k;
      assert r[i] == m[k];
    }
  }

  /** The smallest key below `n` whose row satisfies `keep`, if there is one. */
  function First<T>(m: map<int, T>, keep: T -> bool, n: int): (r: Option<int>)
    ensures r.Some? ==> 1 <= r.value < n && r.value in m && keep(m[r.value])
    ensures r.Some? ==> forall k :: 1 <= k < r.value && k in m ==> !keep(m[k])
    ensures r.None? ==> forall k :: 1 <= k < n && k in m ==> !keep(m[k])
  {
    var ks := Select(m, keep, n);
    if |ks| == 0 then None else Some(ks[0])
  }
}
