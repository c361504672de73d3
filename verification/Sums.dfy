/** Totals over a map's values, and how one update moves them. */
module Sums {
  import opened Ordered

  ghost function MapSum<V>(m: map<string, V>, f: V -> int): int
    decreases m.Keys
  {
    if m == map[] then 0
    else
      var k := Minimum(m.Keys);
      f(m[k]) + MapSum(m - {k}, f)
  }

  lemma {:induction false} MapSumRemove<V>(m: map<string, V>, k: string, f: V -> int)
    requires k in m
    ensures MapSum(m, f) == f(m[k]) + MapSum(m - {k}, f)
    decreases m.Keys
  {
    var first := Minimum(m.Keys);
    if k != first {
      var rest := m - {first};
      MapSumRemove(rest, k, f);
      assert Minimum((m - {k}).Keys) == first by {
        MinimumUnique((m - {k}).Keys, Minimum((m - {k}).Keys), first);
      }
      assert m - {k} - {first} == rest - {k};
    }
  }

  lemma MapSumUpdate<V>(m: map<string, V>, k: string, v: V, f: V -> int)
    ensures MapSum(m[k := v], f) == MapSum(m, f) + f(v) - (if k in m then f(m[k]) else 0)
  {
    var n := m[k := v];
    MapSumRemove(n, k, f);
    if k in m {
      MapSumRemove(m, k, f);
      assert n - {k} == m - {k};
    } else {
      assert n - {k} == m;
    }
  }

  lemma {:induction false} MapSumMonotone<V>(m: map<string, V>, n: map<string, V>, f: V -> int)
    requires m.Keys == n.Keys
    requires forall k | k in m :: f(m[k]) <= f(n[k])
    ensures MapSum(m, f) <= MapSum(n, f)
    decreases m.Keys
  {
    if m != map[] {
      var k := Minimum(m.Keys);
      MapSumMonotone(m - {k}, n - {k}, f);
    } else {
      assert n == map[];
    }
  }

  lemma {:induction false} MapSumNonNegative<V>(m: map<string, V>, f: V -> int)
    requires forall k | k in m :: f(m[k]) >= 0
    ensures MapSum(m, f) >= 0
    ensures forall k | k in m :: f(m[k]) <= MapSum(m, f)
    decreases m.Keys
  {
    if m != map[] {
      var first := Minimum(m.Keys);
      MapSumNonNegative(m - {first}, f);
      forall k | k in m ensures f(m[k]) <= MapSum(m, f) {
        if k != first {
          assert k in m - {first};
        }
      }
    }
  }

  /** Entries the filter drops may be removed without changing the total. */
  lemma {:induction false} MapSumRestrict<V>(m: map<string, V>, keep: set<string>, f: V -> int)
    requires forall k | k in m && k !in keep :: f(m[k]) == 0
    ensures MapSum(map k | k in m && k in keep :: m[k], f) == MapSum(m, f)
    decreases m.Keys
  {
    var kept := map k | k in m && k in keep :: m[k];
    if m == map[] {
      assert kept == map[];
    } else {
      var first := Minimum(m.Keys);
      var rest := m - {first};
      MapSumRestrict(rest, keep, f);
      var keptRest := map k | k in rest && k in keep :: rest[k];
      if first in keep {
        MapSumRemove(kept, first, f);
        assert kept - {first} == keptRest;
      } else {
        assert kept == keptRest;
      }
    }
  }

  ghost function KeySum<V>(ids: seq<string>, m: map<string, V>, f: V -> int): int
    requires forall id | id in ids :: id in m
  {
    if ids == [] then 0 else f(m[ids[0]]) + KeySum(ids[1..], m, f)
  }

  /** Summing over a listing of the keys of `part` sums `part`. */
  lemma {:induction false} KeySumIsMapSum<V>(ids: seq<string>, part: map<string, V>, m: map<string, V>, f: V -> int)
    requires Distinct(ids) && forall id :: id in ids <==> id in part
    requires forall id | id in part :: id in m && m[id] == part[id]
    ensures KeySum(ids, m, f) == MapSum(part, f)
    decreases |ids|
  {
    if ids == [] {
      assert part == map[];
    } else {
      MapSumRemove(part, ids[0], f);
      assert forall id :: id in ids <==> id == ids[0] || id in ids[1..];
      KeySumIsMapSum(ids[1..], part - {ids[0]}, m, f);
    }
  }
}
