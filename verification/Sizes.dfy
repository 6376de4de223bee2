/** Sizes of finite sets. */
module Sizes {
  /** The numbers below n. */
  function UpTo(n: nat): (s: set<nat>)
    ensures |s| == n && forall i :: i in s <==> 0 <= i < n
  {
    if n == 0 then {} else UpTo(n - 1) + {n - 1}
  }

  /** Where f has no value twice, as many values as indices. */
  lemma {:induction false} ImageSize(s: set<int>, f: seq<int>, n: nat)
    requires n <= |f| && s <= UpTo(n)
    requires forall i, j | i in s && j in s && i != j :: f[i] != f[j]
    ensures |set i | i in s :: f[i]| == |s|
  {
    hide UpTo;
    var image := set i | i in s :: f[i];
    if n == 0 {
      assert s <= UpTo(0) == {};
      assert image == {};
    } else if n - 1 in s {
      var rest := s - {n - 1};
      ImageSize(rest, f, n - 1);
      assert image == (set i | i in rest :: f[i]) + {f[n - 1]};
    } else {
      ImageSize(s, f, n - 1);
    }
  }

  lemma SubsetSize<T>(a: set<T>, b: set<T>)
    requires a <= b
    ensures |a| <= |b|
    ensures |a| == |b| ==> a == b
  {
    assert b == a + (b - a);
  }
}
