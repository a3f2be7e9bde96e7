/**
 The volume capacity total of a node: the sum of the per-pool capacities in its
 `InitVolume` map. Go visits a map in an unspecified order, so the loop is
 modelled over an explicit key order (`Enumerates`), accumulating in `int64`
 with wrap-around after every addition. The lemmas show the outcome is the
 wrapped sum of the map's values whatever the order.
 */
module Volume {
  import opened Numbers

  /** `order` visits every key of `m` exactly once, as a `range` loop over a Go map does. */
  predicate Enumerates(order: seq<string>, m: map<string, int>) {
    && (forall i, j :: 0 <= i < j < |order| ==> order[i] != order[j])
    && (forall i :: 0 <= i < |order| ==> order[i] in m)
    && (forall k :: k in m ==> k in order)
  }

  /** The loop `total += m[k]` over `order` on an `int64` accumulator that starts at 0. */
  function LoopSum(m: map<string, int>, order: seq<string>): Int64
    requires forall i :: 0 <= i < |order| ==> order[i] in m
    decreases |order|
  {
    if |order| == 0 then 0
    else Wrap64(LoopSum(m, order[..|order| - 1]) + m[order[|order| - 1]])
  }

  /** The same loop on an unbounded accumulator. */
  function SeqSum(m: map<string, int>, order: seq<string>): int
    requires forall i :: 0 <= i < |order| ==> order[i] in m
    decreases |order|
  {
    if |order| == 0 then 0
    else SeqSum(m, order[..|order| - 1]) + m[order[|order| - 1]]
  }

  /** Sum of the values of `m` at `keys`, independent of any order. */
  ghost function SumAt(m: map<string, int>, keys: set<string>): int
    requires keys <= m.Keys
    decreases keys
  {
    if keys == {} then 0
    else
      var k :| k in keys;
      m[k] + SumAt(m, keys - {k})
  }

  /** Sum of all the values of `m`. */
  ghost function MapSum(m: map<string, int>): int {
    SumAt(m, m.Keys)
  }

  /** Any key, not only the one `SumAt` happens to pick, can be taken out first. */
  lemma {:induction false} SumAtRemove(m: map<string, int>, keys: set<string>, k: string)
    requires keys <= m.Keys && k in keys
    ensures SumAt(m, keys) == m[k] + SumAt(m, keys - {k})
    decreases keys
  {
    var j :| j in keys && SumAt(m, keys) == m[j] + SumAt(m, keys - {j});
    if j != k {
      assert (keys - {j}) - {k} == (keys - {k}) - {j};
      SumAtRemove(m, keys - {j}, k);
      SumAtRemove(m, keys - {k}, j);
    }
  }

  /** The sum at `keys` only reads `m` at those keys. */
  lemma {:induction false} SumAtAgree(m: map<string, int>, n: map<string, int>, keys: set<string>)
    requires keys <= m.Keys && keys <= n.Keys
    requires forall k :: k in keys ==> m[k] == n[k]
    ensures SumAt(m, keys) == SumAt(n, keys)
    decreases keys
  {
    if keys != {} {
      var j :| j in keys && SumAt(m, keys) == m[j] + SumAt(m, keys - {j});
      SumAtRemove(n, keys, j);
      SumAtAgree(m, n, keys - {j});
    }
  }

  /** Wrapping after every step equals wrapping the unbounded sum once. */
  lemma {:induction false} LoopSumWraps(m: map<string, int>, order: seq<string>)
    requires forall i :: 0 <= i < |order| ==> order[i] in m
    ensures LoopSum(m, order) == Wrap64(SeqSum(m, order))
    decreases |order|
  {
    if |order| > 0 {
      var front := order[..|order| - 1];
      LoopSumWraps(m, front);
      WrapAdd(SeqSum(m, front), m[order[|order| - 1]]);
    }
  }

  /** Keys outside `order` do not affect its sum. */
  lemma {:induction false} SeqSumIgnoresOtherKeys(m: map<string, int>, k: string, order: seq<string>)
    requires k !in order
    requires forall i :: 0 <= i < |order| ==> order[i] in m
    ensures forall i :: 0 <= i < |order| ==> order[i] in m - {k}
    ensures SeqSum(m - {k}, order) == SeqSum(m, order)
    decreases |order|
  {
    if |order| > 0 {
      SeqSumIgnoresOtherKeys(m, k, order[..|order| - 1]);
    }
  }

  /** Summing along any enumeration of the keys yields the sum of the map's values. */
  lemma {:induction false} SeqSumIsMapSum(m: map<string, int>, order: seq<string>)
    requires Enumerates(order, m)
    ensures SeqSum(m, order) == MapSum(m)
    decreases |order|
  {
    if |order| == 0 {
      assert m.Keys == {};
    } else {
      var k := order[|order| - 1];
      var front := order[..|order| - 1];
      assert k !in front;
      assert Enumerates(front, m - {k}) by {
        forall key | key in m - {k} ensures key in front {
          assert key in order;
          var i :| 0 <= i < |order| && order[i] == key;
          assert i != |order| - 1;
          assert front[i] == key;
        }
      }
      SeqSumIgnoresOtherKeys(m, k, front);
      SeqSumIsMapSum(m - {k}, front);
      SumAtRemove(m, m.Keys, k);
      assert (m - {k}).Keys == m.Keys - {k};
      SumAtAgree(m - {k}, m, m.Keys - {k});
    }
  }

  /** The volume total does not depend on the order the map is visited in: it is the
      wrapped sum of the pool capacities, and 0 for a node without pools. */
  lemma VolumeTotalIsMapSum(m: map<string, int>, order: seq<string>)
    requires Enumerates(order, m)
    ensures LoopSum(m, order) == Wrap64(MapSum(m))
    ensures MinInt64 <= MapSum(m) <= MaxInt64 ==> LoopSum(m, order) == MapSum(m)
    ensures m == map[] ==> LoopSum(m, order) == 0
  {
    LoopSumWraps(m, order);
    SeqSumIsMapSum(m, order);
  }
}
