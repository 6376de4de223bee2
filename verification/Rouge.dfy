/** ROUGE scores over token lists (eval/text.go). Floats are reals; tokenizing is
    not part of this model. */
module Rouge {

  // ----- longest common subsequence -----

  /** The length of a longest common subsequence of the first i and j tokens. */
  function Lcs(c: seq<string>, r: seq<string>, i: nat, j: nat): nat
    requires i <= |c| && j <= |r|
  {
    if i == 0 || j == 0 then 0
    else if c[i - 1] == r[j - 1] then Lcs(c, r, i - 1, j - 1) + 1
    else Max(Lcs(c, r, i - 1, j), Lcs(c, r, i, j - 1))
  }

  function Max(a: nat, b: nat): nat {
    if a >= b then a else b
  }

  /** f pairs equal tokens, in order in both lists, among the first i and j. */
  predicate Common(c: seq<string>, r: seq<string>, i: nat, j: nat, f: seq<(int, int)>)
    requires i <= |c| && j <= |r|
  {
    && (forall k | 0 <= k < |f| :: 0 <= f[k].0 < i && 0 <= f[k].1 < j && c[f[k].0] == r[f[k].1])
    && (forall k, l | 0 <= k < l < |f| :: f[k].0 < f[l].0 && f[k].1 < f[l].1)
  }

  lemma {:induction false} LcsIsBound(c: seq<string>, r: seq<string>, i: nat, j: nat, f: seq<(int, int)>)
    requires i <= |c| && j <= |r| && Common(c, r, i, j, f)
    ensures |f| <= Lcs(c, r, i, j)
  {
    if f != [] {
      var last, init := f[|f| - 1], f[..|f| - 1];
      if c[i - 1] == r[j - 1] {
        assert forall k | 0 <= k < |init| :: init[k].0 < last.0 && init[k].1 < last.1;
        LcsIsBound(c, r, i - 1, j - 1, init);
      } else if last.0 < i - 1 {
        LcsIsBound(c, r, i - 1, j, f);
      } else {
        LcsIsBound(c, r, i, j - 1, f);
      }
    }
  }

  lemma {:induction false} LcsIsAttained(c: seq<string>, r: seq<string>, i: nat, j: nat) returns (f: seq<(int, int)>)
    requires i <= |c| && j <= |r|
    ensures Common(c, r, i, j, f) && |f| == Lcs(c, r, i, j)
  {
    if i == 0 || j == 0 {
      f := [];
    } else if c[i - 1] == r[j - 1] {
      f := LcsIsAttained(c, r, i - 1, j - 1);
      f := f + [(i - 1, j - 1)];
    } else if Lcs(c, r, i - 1, j) >= Lcs(c, r, i, j - 1) {
      f := LcsIsAttained(c, r, i - 1, j);
    } else {
      f := LcsIsAttained(c, r, i, j - 1);
    }
  }

  lemma {:induction false} LcsIsSymmetric(c: seq<string>, r: seq<string>, i: nat, j: nat)
    requires i <= |c| && j <= |r|
    ensures Lcs(c, r, i, j) == Lcs(r, c, j, i)
  {
    if i > 0 && j > 0 {
      LcsIsSymmetric(c, r, i - 1, j - 1);
      LcsIsSymmetric(c, r, i - 1, j);
      LcsIsSymmetric(c, r, i, j - 1);
    }
  }

  /** The table row by row, with two arrays that trade places. */
  method LcsLength(c: seq<string>, r: seq<string>) returns (n: nat)
    ensures n == Lcs(c, r, |c|, |r|)
  {
    var prev := new nat[|r| + 1](_ => 0);
    var cur := new nat[|r| + 1](_ => 0);
    for i := 1 to |c| + 1
      invariant fresh(prev) && fresh(cur) && prev != cur
      invariant prev.Length == cur.Length == |r| + 1 && cur[0] == 0
      invariant forall j | 0 <= j <= |r| :: prev[j] == Lcs(c, r, i - 1, j)
    {
      for j := 1 to |r| + 1
        invariant cur[0] == 0
        invariant forall k | 0 <= k <= |r| :: prev[k] == Lcs(c, r, i - 1, k)
        invariant forall k | 0 <= k < j :: cur[k] == Lcs(c, r, i, k)
      {
        if c[i - 1] == r[j - 1] {
          cur[j] := prev[j - 1] + 1;
        } else if prev[j] >= cur[j - 1] {
          cur[j] := prev[j];
        } else {
          cur[j] := cur[j - 1];
        }
      }
      prev, cur := cur, prev;
    }
    n := prev[|r|];
  }

  // ----- unigram overlap -----

  function Overlap(c: seq<string>, r: seq<string>): nat {
    |multiset(c) * multiset(r)|
  }

  function CountOf(counts: map<string, nat>, w: string): nat {
    if w in counts then counts[w] else 0
  }

  ghost predicate Counts(counts: map<string, nat>, m: multiset<string>) {
    forall w :: CountOf(counts, w) == m[w]
  }

  lemma CountUp(counts: map<string, nat>, m: multiset<string>, w: string)
    requires Counts(counts, m)
    ensures Counts(counts[w := CountOf(counts, w) + 1], m + multiset{w})
  {}

  lemma CountDown(counts: map<string, nat>, m: multiset<string>, w: string)
    requires Counts(counts, m)
    ensures CountOf(counts, w) > 0 ==> Counts(counts[w := CountOf(counts, w) - 1], m - multiset{w})
    ensures CountOf(counts, w) == 0 ==> m - multiset{w} == m
  {}

  /** Each candidate token uses up one equal reference token, if one is left. */
  method UnigramOverlap(c: seq<string>, r: seq<string>) returns (overlap: nat)
    ensures overlap == Overlap(c, r)
  {
    hide Counts;
    var counts: map<string, nat> := map[];
    NoCounts();
    for i := 0 to |r|
      invariant Counts(counts, multiset(r[..i]))
    {
      assert r[..i + 1] == r[..i] + [r[i]];
      CountUp(counts, multiset(r[..i]), r[i]);
      counts := counts[r[i] := CountOf(counts, r[i]) + 1];
    }
    assert r[..|r|] == r;
    overlap := 0;
    ghost var used: multiset<string> := multiset{};
    assert multiset(r) - used == multiset(r);
    for i := 0 to |c|
      invariant used == multiset(c[..i]) && Counts(counts, multiset(r) - used) && overlap == |used * multiset(r)|
    {
      assert c[..i + 1] == c[..i] + [c[i]];
      OneMore(used, multiset(r), c[i]);
      CountDown(counts, multiset(r) - used, c[i]);
      CountIs(counts, multiset(r) - used, c[i]);
      if CountOf(counts, c[i]) > 0 {
        counts := counts[c[i] := counts[c[i]] - 1];
        overlap := overlap + 1;
      }
      used := used + multiset{c[i]};
    }
    assert c[..|c|] == c;
  }

  lemma NoCounts()
    ensures Counts(map[], multiset{})
  {}

  lemma CountIs(counts: map<string, nat>, m: multiset<string>, w: string)
    requires Counts(counts, m)
    ensures CountOf(counts, w) == m[w]
  {}

  lemma OneMore(a: multiset<string>, r: multiset<string>, w: string)
    ensures (a + multiset{w}) * r == a * r + if r[w] > a[w] then multiset{w} else multiset{}
    ensures r - (a + multiset{w}) == r - a - multiset{w}
  {}

  lemma SubMultisetSize(a: multiset<string>, b: multiset<string>)
    requires a <= b
    ensures |a| <= |b|
  {
    assert b == a + (b - a);
  }

  /** A common subsequence uses each token at most as often as both lists have
      it. */
  lemma {:induction false} LcsWithinOverlap(c: seq<string>, r: seq<string>, i: nat, j: nat)
    requires i <= |c| && j <= |r|
    ensures Lcs(c, r, i, j) <= Overlap(c[..i], r[..j])
  {
    if i > 0 && j > 0 {
      var a, b := multiset(c[..i - 1]), multiset(r[..j - 1]);
      var x, y := c[i - 1], r[j - 1];
      assert c[..i] == c[..i - 1] + [x] && r[..j] == r[..j - 1] + [y];
      if x == y {
        LcsWithinOverlap(c, r, i - 1, j - 1);
        assert (a + multiset{x}) * (b + multiset{x}) == a * b + multiset{x};
      } else {
        LcsWithinOverlap(c, r, i - 1, j);
        LcsWithinOverlap(c, r, i, j - 1);
        SubMultisetSize(a * (b + multiset{y}), (a + multiset{x}) * (b + multiset{y}));
        SubMultisetSize((a + multiset{x}) * b, (a + multiset{x}) * (b + multiset{y}));
      }
    }
  }

  // ----- scores -----

  function FMeasure(overlap: nat, cand: nat, ref: nat): real {
    if overlap == 0 || cand == 0 || ref == 0 then 0.0
    else
      var p, r := overlap as real / cand as real, overlap as real / ref as real;
      2.0 * p * r / (p + r)
  }

  /** The harmonic mean, with the fractions cleared. */
  lemma FMeasureIs(overlap: nat, cand: nat, ref: nat)
    requires cand > 0 && ref > 0
    ensures FMeasure(overlap, cand, ref) * (cand + ref) as real == 2.0 * overlap as real
  {
    if overlap > 0 {
      var o, a, b := overlap as real, cand as real, ref as real;
      var p, r := o / a, o / b;
      assert p * a == o && r * b == o;
      assert p > 0.0 && r > 0.0 by { PositiveQuotient(o, a); PositiveQuotient(o, b); }
      var f := 2.0 * p * r / (p + r);
      assert f * (p + r) == 2.0 * p * r;
      ClearFractions(f, p, r, a, b, o);
    }
  }

  lemma PositiveQuotient(o: real, a: real)
    requires o > 0.0 && a > 0.0
    ensures o / a > 0.0
  {}

  lemma ClearFractions(f: real, p: real, r: real, a: real, b: real, o: real)
    requires p * a == o && r * b == o && o > 0.0 && a > 0.0 && b > 0.0
    requires f * (p + r) == 2.0 * p * r
    ensures f * (a + b) == 2.0 * o
  {
    // multiply by a * b: f * (o * b + o * a) == 2 * o * o
    calc {
      f * (a + b) * o;
      f * (a * o + b * o);
      f * (a * (r * b) + b * (p * a));
      (f * (p + r)) * (a * b);
      (2.0 * p * r) * (a * b);
      2.0 * (p * a) * (r * b);
      2.0 * o * o;
    }
    Cancel(f * (a + b), 2.0 * o, o);
  }

  lemma Cancel(x: real, y: real, o: real)
    requires x * o == y * o && o > 0.0
    ensures x == y
  {
    assert (x - y) * o == 0.0;
  }

  function Score(overlap: nat, c: seq<string>, r: seq<string>): real {
    if |c| == 0 && |r| == 0 then 1.0
    else if |c| == 0 || |r| == 0 then 0.0
    else FMeasure(overlap, |c|, |r|)
  }

  method RougeL(c: seq<string>, r: seq<string>) returns (v: real)
    ensures v == Score(Lcs(c, r, |c|, |r|), c, r)
    ensures c == [] && r == [] ==> v == 1.0
    ensures (c == []) != (r == []) ==> v == 0.0
    ensures c != [] && r != [] ==> v * (|c| + |r|) as real == 2.0 * Lcs(c, r, |c|, |r|) as real
  {
    hide FMeasure, Lcs;
    if |c| == 0 && |r| == 0 { return 1.0; }
    if |c| == 0 || |r| == 0 { return 0.0; }
    var n := LcsLength(c, r);
    FMeasureIs(n, |c|, |r|);
    v := FMeasure(n, |c|, |r|);
  }

  method Rouge1(c: seq<string>, r: seq<string>) returns (v: real)
    ensures v == Score(Overlap(c, r), c, r)
    ensures c == [] && r == [] ==> v == 1.0
    ensures (c == []) != (r == []) ==> v == 0.0
    ensures c != [] && r != [] ==> v * (|c| + |r|) as real == 2.0 * |multiset(c) * multiset(r)| as real
  {
    hide FMeasure;
    if |c| == 0 && |r| == 0 { return 1.0; }
    if |c| == 0 || |r| == 0 { return 0.0; }
    var n := UnigramOverlap(c, r);
    FMeasureIs(n, |c|, |r|);
    v := FMeasure(n, |c|, |r|);
  }

  lemma ScoreOrder(m: nat, n: nat, c: seq<string>, r: seq<string>)
    requires m <= n && n <= |c| && n <= |r|
    ensures 0.0 <= Score(m, c, r) <= Score(n, c, r) <= 1.0
    ensures |c| > 0 && |r| > 0 ==> (Score(n, c, r) == 1.0 <==> n == |c| == |r|)
    ensures Score(n, c, r) == Score(n, r, c)
  {
    hide FMeasure;
    if |c| > 0 && |r| > 0 {
      FMeasureIs(m, |c|, |r|);
      FMeasureIs(n, |c|, |r|);
      FMeasureIs(n, |r|, |c|);
      Fractions(FMeasure(m, |c|, |r|), FMeasure(n, |c|, |r|), FMeasure(n, |r|, |c|), m as real, n as real,
          (|c| + |r|) as real);
      assert 2.0 * n as real == (2 * n) as real;
    }
  }

  lemma Fractions(x: real, y: real, z: real, p: real, q: real, s: real)
    requires 0.0 <= p <= q && 2.0 * q <= s && s > 0.0
    requires x * s == 2.0 * p && y * s == 2.0 * q && z * s == 2.0 * q
    ensures 0.0 <= x <= y <= 1.0 && y == z
    ensures y == 1.0 <==> 2.0 * q == s
  {
    Compare(0.0, x, s);
    Compare(x, y, s);
    Compare(y, 1.0, s);
    Cancel(y, z, s);
    if 2.0 * q == s { One(y, s); }
  }

  lemma One(y: real, s: real)
    requires y * s == s && s > 0.0
    ensures y == 1.0
  {
    assert (y - 1.0) * s == 0.0;
  }

  lemma Compare(x: real, y: real, s: real)
    requires x * s <= y * s && s > 0.0
    ensures x <= y
  {
    assert x > y ==> (x - y) * s > 0.0;
  }

  lemma OverlapBounds(c: seq<string>, r: seq<string>)
    ensures Overlap(c, r) <= |c| && Overlap(c, r) <= |r| && Overlap(c, r) == Overlap(r, c)
  {
    SubMultisetSize(multiset(c) * multiset(r), multiset(c));
    SubMultisetSize(multiset(c) * multiset(r), multiset(r));
    assert multiset(c) * multiset(r) == multiset(r) * multiset(c);
  }

  /** A common subsequence as long as both lists pairs every token with itself. */
  lemma {:induction false} FullLcsIsEquality(c: seq<string>, r: seq<string>, f: seq<(int, int)>, k: nat)
    requires |c| == |r| == |f| && Common(c, r, |c|, |r|, f) && k < |f|
    ensures f[k] == (k, k)
  {
    AtLeast(c, r, f, k);
    AtMost(c, r, f, k);
  }

  lemma {:induction false} AtLeast(c: seq<string>, r: seq<string>, f: seq<(int, int)>, k: nat)
    requires Common(c, r, |c|, |r|, f) && k < |f|
    ensures f[k].0 >= k && f[k].1 >= k
  {
    if k > 0 { AtLeast(c, r, f, k - 1); }
  }

  lemma {:induction false} AtMost(c: seq<string>, r: seq<string>, f: seq<(int, int)>, k: nat)
    requires |c| == |r| == |f| && Common(c, r, |c|, |r|, f) && k < |f|
    ensures f[k].0 <= k && f[k].1 <= k
    decreases |f| - k
  {
    if k < |f| - 1 { AtMost(c, r, f, k + 1); }
  }

  lemma {:induction false} LcsOfEqual(c: seq<string>)
    ensures Lcs(c, c, |c|, |c|) == |c|
  {
    var f := seq(|c|, i => (i, i));
    LcsIsBound(c, c, |c|, |c|, f);
    LcsWithinOverlap(c, c, |c|, |c|);
    OverlapBounds(c, c);
    assert c[..|c|] == c;
  }

  /** RougeL never exceeds Rouge1; both lie in 0..1 and do not care which text is
      the candidate; and RougeL is 1 exactly for equal token lists. */
  lemma {:induction false} RougeOrder(c: seq<string>, r: seq<string>)
    ensures var l, u := Score(Lcs(c, r, |c|, |r|), c, r), Score(Overlap(c, r), c, r);
      && 0.0 <= l <= u <= 1.0
      && l == Score(Lcs(r, c, |r|, |c|), r, c)
      && u == Score(Overlap(r, c), r, c)
      && (l == 1.0 <==> c == r)
  {
    var n := Lcs(c, r, |c|, |r|);
    LcsWithinOverlap(c, r, |c|, |r|);
    assert c[..|c|] == c && r[..|r|] == r;
    OverlapBounds(c, r);
    LcsIsSymmetric(c, r, |c|, |r|);
    ScoreOrder(n, Overlap(c, r), c, r);
    ScoreOrder(n, n, c, r);
    if n == |c| == |r| {
      var f := LcsIsAttained(c, r, |c|, |r|);
      forall k: nat | k < |c| ensures c[k] == r[k] { FullLcsIsEquality(c, r, f, k); }
    }
    if c == r { LcsOfEqual(c); }
  }
}
