/** Byte-wise string order and the ascending key listing that a `BTreeMap<String, _>` iterates in. */
module Ordered {

  predicate Less(a: string, b: string) {
    |b| > 0 && (|a| == 0 || a[0] < b[0] || (a[0] == b[0] && Less(a[1..], b[1..])))
  }

  lemma {:induction false} LessTotal(a: string, b: string)
    ensures a == b || Less(a, b) || Less(b, a)
  {
    if |a| > 0 && |b| > 0 && a[0] == b[0] {
      LessTotal(a[1..], b[1..]);
      assert a == [a[0]] + a[1..] && b == [b[0]] + b[1..];
    } else if |a| == 0 && |b| == 0 {
      assert a == b;
    }
  }

  lemma {:induction false} LessTransitive(a: string, b: string, c: string)
    requires Less(a, b) && Less(b, c)
    ensures Less(a, c)
  {
    if |a| > 0 && a[0] == b[0] == c[0] {
      LessTransitive(a[1..], b[1..], c[1..]);
    }
  }

  lemma {:induction false} LessIrreflexive(a: string)
    ensures !Less(a, a)
  {
    if |a| > 0 {
      LessIrreflexive(a[1..]);
    }
  }

  predicate IsMinimum(m: string, s: set<string>) {
    m in s && forall x | x in s :: x == m || Less(m, x)
  }

  lemma MinimumExists(s: set<string>)
    requires s != {}
    ensures exists m :: IsMinimum(m, s)
  {
    var x :| x in s;
    if s == {x} {
      assert IsMinimum(x, s);
    } else {
      MinimumExists(s - {x});
      var m :| IsMinimum(m, s - {x});
      LessTotal(x, m);
      if Less(x, m) {
        forall y | y in s ensures y == x || Less(x, y) {
          if y != x && y != m {
            LessTransitive(x, m, y);
          }
        }
        assert IsMinimum(x, s);
      } else {
        assert IsMinimum(m, s);
      }
    }
  }

  lemma MinimumUnique(s: set<string>, m: string, n: string)
    requires IsMinimum(m, s) && IsMinimum(n, s)
    ensures m == n
  {
    if m != n {
      LessTransitive(m, n, m);
      LessIrreflexive(m);
    }
  }

  function Minimum(s: set<string>): (m: string)
    requires s != {}
    ensures IsMinimum(m, s)
  {
    MinimumExists(s);
    assert forall m, n | IsMinimum(m, s) && IsMinimum(n, s) :: m == n by {
      forall m, n | IsMinimum(m, s) && IsMinimum(n, s) ensures m == n {
        MinimumUnique(s, m, n);
      }
    }
    var m :| m in s && IsMinimum(m, s);
    m
  }

  predicate Ascending(ks: seq<string>) {
    forall i, j | 0 <= i < j < |ks| :: Less(ks[i], ks[j])
  }

  /** The iteration order of a map: its keys, ascending, each exactly once. */
  function SortedKeys(s: set<string>): (ks: seq<string>)
    ensures forall k :: k in ks <==> k in s
    decreases s
  {
    if s == {} then []
    else
      var m := Minimum(s);
      [m] + SortedKeys(s - {m})
  }

  lemma {:induction false} SortedKeysAscending(s: set<string>)
    ensures Ascending(SortedKeys(s))
    ensures |SortedKeys(s)| == |s|
    decreases s
  {
    if s != {} {
      var m := Minimum(s);
      var rest := SortedKeys(s - {m});
      SortedKeysAscending(s - {m});
      forall k | k in rest ensures Less(m, k) {
      }
    }
  }

  ghost predicate Distinct(ks: seq<string>) {
    forall i, j | 0 <= i < j < |ks| :: ks[i] != ks[j]
  }

  lemma {:induction false} SortedKeysDistinct(s: set<string>)
    ensures Distinct(SortedKeys(s))
    decreases s
  {
    if s != {} {
      SortedKeysDistinct(s - {Minimum(s)});
    }
  }
}
