/**
 `Series.groupby(key).sum()` over a column of (key, amount) pairs, and the
 sums over subsets of keys used to relate grouped tables to grand totals.
 */
module Grouping {
  import opened Strings

  /** Sum of every amount in the column. */
  function Total<K>(p: seq<(K, int)>): int
  {
    if p == [] then 0 else p[0].1 + Total(p[1..])
  }

  /** Sum of the amounts whose key is `k`: the reference meaning of one group. */
  function KeySum<K(==)>(p: seq<(K, int)>, k: K): int
  {
    if p == [] then 0 else (if p[0].0 == k then p[0].1 else 0) + KeySum(p[1..], k)
  }

  /** Sum of the amounts whose key is not in `ks`. */
  function Outside<K(==)>(p: seq<(K, int)>, ks: seq<K>): int
  {
    if p == [] then 0 else (if p[0].0 in ks then 0 else p[0].1) + Outside(p[1..], ks)
  }

  /** Sum of the groups named by `ks`, in order. */
  function SumOver<K(==)>(ks: seq<K>, p: seq<(K, int)>): int
  {
    if ks == [] then 0 else KeySum(p, ks[0]) + SumOver(ks[1..], p)
  }

  ghost function KeysOf<K>(p: seq<(K, int)>): set<K>
  {
    set i | 0 <= i < |p| :: p[i].0
  }

  /** The grouped sums: one entry per key present, holding that key's total. */
  function GroupSum<K(==)>(p: seq<(K, int)>): (g: map<K, int>)
    ensures g.Keys == KeysOf(p)
    ensures forall k :: k in g ==> g[k] == KeySum(p, k)
  {
    if p == [] then map[]
    else
      var rest := GroupSum(p[1..]);
      var k := p[0].0;
      assert KeysOf(p) == {k} + KeysOf(p[1..]) by {
        forall x | x in KeysOf(p) ensures x in {k} + KeysOf(p[1..]) {
          var i :| 0 <= i < |p| && p[i].0 == x;
          if i > 0 { assert p[1..][i - 1].0 == x; }
        }
        forall x | x in KeysOf(p[1..]) ensures x in KeysOf(p) {
          var i :| 0 <= i < |p[1..]| && p[1..][i].0 == x;
          assert p[i + 1].0 == x;
        }
      }
      assert k !in rest ==> KeySum(p[1..], k) == 0 by {
        if k !in rest { KeySumAbsent(p[1..], k); }
      }
      rest[k := (if k in rest then rest[k] else 0) + p[0].1]
  }

  lemma {:induction false} KeySumAbsent<K>(p: seq<(K, int)>, k: K)
    requires k !in KeysOf(p)
    ensures KeySum(p, k) == 0
  {
    if p != [] {
      assert p[0].0 in KeysOf(p);
      assert KeysOf(p[1..]) <= KeysOf(p) by {
        forall x | x in KeysOf(p[1..]) ensures x in KeysOf(p) {
          var i :| 0 <= i < |p[1..]| && p[1..][i].0 == x;
          assert p[i + 1].0 == x;
        }
      }
      KeySumAbsent(p[1..], k);
    }
  }

  /** `reindex(..., fill_value=0)` for one label. */
  function Lookup<K>(g: map<K, int>, k: K): int
  {
    if k in g then g[k] else 0
  }

  /** A grouped table read with zero fill gives each key's total, present or not. */
  lemma {:induction false} LookupGroupSum<K>(p: seq<(K, int)>, k: K)
    ensures Lookup(GroupSum(p), k) == KeySum(p, k)
  {
    if k !in GroupSum(p) {
      KeySumAbsent(p, k);
    }
  }

  /** Adding one pair to the column adds its amount to exactly one group of `ks`. */
  lemma {:induction false} SumOverCons<K>(ks: seq<K>, k: K, a: int, p: seq<(K, int)>)
    requires Distinct(ks)
    ensures SumOver(ks, [(k, a)] + p) == SumOver(ks, p) + (if k in ks then a else 0)
  {
    if ks != [] {
      assert ([(k, a)] + p)[1..] == p;
      assert k in ks <==> k == ks[0] || k in ks[1..] by {
        assert ks == [ks[0]] + ks[1..];
      }
      assert ks[0] == k ==> k !in ks[1..];
      SumOverCons(ks[1..], k, a, p);
    }
  }

  lemma {:induction false} SumOverEmpty<K>(ks: seq<K>)
    ensures SumOver(ks, []) == 0
  {
    if ks != [] {
      SumOverEmpty(ks[1..]);
    }
  }

  /**
   The groups named by distinct keys, plus everything outside them, make up
   the whole column: no amount is lost or counted twice.
   */
  lemma {:induction false} Partition<K>(ks: seq<K>, p: seq<(K, int)>)
    requires Distinct(ks)
    ensures SumOver(ks, p) + Outside(p, ks) == Total(p)
  {
    if p == [] {
      SumOverEmpty(ks);
    } else {
      assert p == [p[0]] + p[1..];
      SumOverCons(ks, p[0].0, p[0].1, p[1..]);
      Partition(ks, p[1..]);
    }
  }

  /** When `ks` names every key of the column, nothing is outside it. */
  lemma {:induction false} OutsideCovered<K>(p: seq<(K, int)>, ks: seq<K>)
    requires forall i :: 0 <= i < |p| ==> p[i].0 in ks
    ensures Outside(p, ks) == 0
  {
    if p != [] {
      assert forall i :: 0 <= i < |p[1..]| ==> p[1..][i] == p[i + 1];
      OutsideCovered(p[1..], ks);
    }
  }
}
