/** The unbiased pass@k estimate (eval/evaluate.go), over the reals. */
module PassAtK {
  /** The number of ways to draw k of n. */
  function Choose(n: nat, k: nat): nat {
    if k == 0 then 1 else if n == 0 then 0 else Choose(n - 1, k - 1) + Choose(n - 1, k)
  }

  lemma {:induction false} TooMany(n: nat, k: nat)
    ensures Choose(n, k) == 0 <==> k > n
  {
    if k > 0 && n > 0 {
      TooMany(n - 1, k - 1);
      TooMany(n - 1, k);
    }
  }

  /** k C(n, k) == n C(n - 1, k - 1). */
  lemma {:induction false} Absorb(n: nat, k: nat)
    requires 0 < k <= n
    ensures k * Choose(n, k) == n * Choose(n - 1, k - 1)
  {
    if k == n {
      Full(n);
      Full(n - 1);
    } else if k == 1 {
      ChooseOne(n);
    } else {
      Absorb(n - 1, k - 1);
      Absorb(n - 1, k);
      AbsorbStep(n, k, Choose(n - 1, k - 1), Choose(n - 1, k), Choose(n - 2, k - 2), Choose(n - 2, k - 1));
    }
  }

  lemma AbsorbStep(n: int, k: int, a: int, b: int, x: int, y: int)
    requires a == x + y && (k - 1) * a == (n - 1) * x && k * b == (n - 1) * y
    ensures k * (a + b) == n * a
  {
    assert (n - 1) * (x + y) == (n - 1) * x + (n - 1) * y;
  }

  /** Of the draws of k from n, (n - k) / n leave out a given element. */
  lemma LeaveOneOut(n: nat, k: nat)
    requires 0 < k < n
    ensures n * Choose(n - 1, k) == (n - k) * Choose(n, k)
  {
    Absorb(n, k);
    LeaveStep(n, k, Choose(n - 1, k - 1), Choose(n - 1, k));
  }

  lemma LeaveStep(n: int, k: int, a: int, b: int)
    requires k * (a + b) == n * a
    ensures n * b == (n - k) * (a + b)
  {}

  lemma {:induction false} Full(n: nat)
    ensures Choose(n, n) == 1
  {
    if n > 0 {
      Full(n - 1);
      TooMany(n - 1, n);
    }
  }

  lemma {:induction false} ChooseOne(n: nat)
    ensures Choose(n, 1) == n
  {
    if n > 0 { ChooseOne(n - 1); }
  }

  function Factorial(n: nat): nat {
    if n == 0 then 1 else n * Factorial(n - 1)
  }

  /** C(n, k) is n! over k! (n - k)!. */
  lemma {:induction false} ChooseIs(n: nat, k: nat)
    requires k <= n
    ensures Choose(n, k) * (Factorial(k) * Factorial(n - k)) == Factorial(n)
  {
    if k > 0 {
      ChooseIs(n - 1, k - 1);
      Absorb(n, k);
      ChooseStep(n, k, Choose(n, k), Choose(n - 1, k - 1), Factorial(k - 1), Factorial(n - k));
    }
  }

  lemma ChooseStep(n: nat, k: nat, c: nat, c': nat, f: nat, g: nat)
    requires k * c == n * c'
    ensures c * ((k * f) * g) == n * (c' * (f * g))
  {
    assert c * ((k * f) * g) == (k * c) * (f * g);
    assert n * (c' * (f * g)) == (n * c') * (f * g);
  }

  /** The chance that k draws from n runs, c of them passing, all miss. */
  function AllMiss(n: nat, c: nat, k: nat): real
    requires c <= n && k <= n
  {
    TooMany(n, k);
    Choose(n - c, k) as real / Choose(n, k) as real
  }

  /** pass@k as it is defined: one minus C(n - c, k) / C(n, k), k at most n. */
  function PassAt(n: nat, c: nat, k: nat): real
    requires c <= n
  {
    if n == 0 || k < 1 then 0.0 else 1.0 - AllMiss(n, c, if k <= n then k else n)
  }

  /** Of the draws of k from n, that many hold a passing run. */
  lemma {:induction false} PassAtIs(n: nat, c: nat, k: nat)
    requires c <= n && 1 <= k
    ensures n == 0 ==> PassAt(n, c, k) == 0.0
    ensures n > 0 ==>
      var k' := if k <= n then k else n;
      PassAt(n, c, k) * Choose(n, k') as real == Choose(n, k') as real - Choose(n - c, k') as real
  {
    hide Choose;
    if n > 0 {
      var k' := if k <= n then k else n;
      TooMany(n, k');
      var x, y := Choose(n - c, k') as real, Choose(n, k') as real;
      var q := x / y;
      assert q * y == x;
      assert (1.0 - q) * y == y - q * y;
    }
  }

  /** One run fewer to draw from: the misses thin out by 1 - k / i. */
  lemma MissStep(i: nat, k: nat)
    requires 0 < k < i
    ensures Choose(i - 1, k) as real == Choose(i, k) as real * (1.0 - k as real / i as real)
  {
    hide Choose;
    LeaveOneOut(i, k);
    InReals(i, k, Choose(i - 1, k), Choose(i, k));
    Divide(i as real, k as real, Choose(i - 1, k) as real, Choose(i, k) as real);
  }

  lemma InReals(a: int, b: int, x: int, y: int)
    requires a * x == (a - b) * y
    ensures a as real * x as real == (a as real - b as real) * y as real
  {
    assert (a * x) as real == a as real * x as real;
    assert ((a - b) * y) as real == (a - b) as real * y as real;
  }

  lemma Divide(a: real, b: real, x: real, y: real)
    requires a > 0.0 && a * x == (a - b) * y
    ensures x == y * (1.0 - b / a)
  {
    var q := b / a;
    assert q * a == b;
    assert a * (y * (1.0 - q)) == y * a - y * (q * a);
    assert a * (x - y * (1.0 - q)) == 0.0;
  }

  /** CaseResult.PassAtK: the product over i of 1 - k / i is the miss chance. */
  method PassAtK(n: nat, passes: nat, errored: bool, k: int) returns (p: real)
    requires passes <= n
    ensures p == if errored || k < 1 then 0.0 else PassAt(n, passes, k)
    ensures n == 0 || errored || k < 1 ==> p == 0.0
  {
    hide Choose;
    if n == 0 || errored || k < 1 { return 0.0; }
    var k' := if k <= n then k else n;
    var c := passes;
    if n - c < k' {
      TooMany(n - c, k');
      TooMany(n, k');
      return 1.0;
    }
    var prod := 1.0;
    for i := n - c + 1 to n + 1
      invariant prod * Choose(i - 1, k') as real == Choose(n - c, k') as real
    {
      MissStep(i, k');
      var f := 1.0 - k' as real / i as real;
      Regroup(prod, Choose(i, k') as real, f);
      prod := prod * f;
    }
    TooMany(n, k');
    Quotient(prod, Choose(n, k') as real, Choose(n - c, k') as real);
    p := 1.0 - prod;
  }

  lemma Regroup(p: real, x: real, f: real)
    ensures p * (x * f) == (p * f) * x
  {}

  lemma Quotient(q: real, d: real, m: real)
    requires d > 0.0 && q * d == m
    ensures q == m / d
  {
    var x := m / d;
    assert x * d == m;
    assert (q - x) * d == 0.0;
  }

  // ----- bounds and monotonicity -----

  lemma {:induction false} MoreToChooseFrom(m: nat, n: nat, k: nat)
    requires m <= n
    ensures Choose(m, k) <= Choose(n, k)
  {
    if k > 0 && m < n {
      MoreToChooseFrom(m, n - 1, k);
    }
  }

  /** (k + 1) C(n, k + 1) == (n - k) C(n, k). */
  lemma NextColumn(n: nat, k: nat)
    requires k <= n
    ensures (k + 1) * Choose(n, k + 1) == (n - k) * Choose(n, k)
  {
    TooMany(n, k + 1);
    if k < n {
      Absorb(n, k + 1);
      if k > 0 {
        LeaveOneOut(n, k);
      } else {
        ChooseOne(n);
      }
    }
  }

  /** Drawing one more makes missing all of them less likely. */
  lemma MissesThinOut(m: nat, n: nat, k: nat)
    requires m <= n && k < n
    ensures Choose(m, k + 1) * Choose(n, k) <= Choose(m, k) * Choose(n, k + 1)
  {
    if k <= m {
      NextColumn(m, k);
      NextColumn(n, k);
      Cross(k + 1, m - k, n - k, Choose(m, k + 1), Choose(m, k), Choose(n, k + 1), Choose(n, k));
    } else {
      TooMany(m, k + 1);
    }
  }

  lemma Cross(c: nat, a: nat, b: nat, m1: nat, m0: nat, n1: nat, n0: nat)
    requires c > 0 && a <= b && c * m1 == a * m0 && c * n1 == b * n0
    ensures m1 * n0 <= m0 * n1
  {
    Scale(a, b, m0 * n0);
    assert c * (m1 * n0) == (c * m1) * n0 == (a * m0) * n0 == a * (m0 * n0);
    assert c * (m0 * n1) == m0 * (c * n1) == m0 * (b * n0) == b * (m0 * n0);
    Unscale(c, m1 * n0, m0 * n1);
  }

  lemma Scale(a: nat, b: nat, x: nat)
    requires a <= b
    ensures a * x <= b * x
  {}

  lemma Unscale(c: nat, x: nat, y: nat)
    requires c > 0 && c * x <= c * y
    ensures x <= y
  {
    if x > y { Scale(1, x - y, c); }
  }

  lemma Ratios(a: nat, b: nat, c: nat, d: nat)
    requires b > 0 && d > 0 && a * d <= c * b
    ensures a as real / b as real <= c as real / d as real
  {
    var x, y := a as real / b as real, c as real / d as real;
    var rb, rd := b as real, d as real;
    assert x * rb == a as real && y * rd == c as real;
    assert (a * d) as real == a as real * rd && (c * b) as real == c as real * rb;
    Ordered(x, y, rb, rd);
  }

  lemma Ordered(x: real, y: real, b: real, d: real)
    requires b > 0.0 && d > 0.0 && (x * b) * d <= (y * d) * b
    ensures x <= y
  {
    assert (y - x) * (b * d) >= 0.0;
    assert b * d > 0.0;
  }

  /** A probability, that more draws and more passing runs can only raise. */
  lemma PassAtIsMonotone(n: nat, c: nat, c': nat, k: nat, k': nat)
    requires c <= c' <= n && k <= k'
    ensures 0.0 <= PassAt(n, c, k) <= PassAt(n, c', k') <= 1.0
  {
    InUnit(n, c, k);
    InUnit(n, c', k');
    MorePasses(n, c, c', k);
    MoreDraws(n, c', k, k');
  }

  lemma InUnit(n: nat, c: nat, k: nat)
    requires c <= n
    ensures 0.0 <= PassAt(n, c, k) <= 1.0
  {
    if n > 0 && k > 0 {
      var k' := if k <= n then k else n;
      TooMany(n, k');
      MoreToChooseFrom(n - c, n, k');
      Ratios(Choose(n - c, k'), Choose(n, k'), 1, 1);
      Ratios(0, 1, Choose(n - c, k'), Choose(n, k'));
    }
  }

  lemma MorePasses(n: nat, c: nat, c': nat, k: nat)
    requires c <= c' <= n
    ensures PassAt(n, c, k) <= PassAt(n, c', k)
  {
    if n > 0 && k > 0 {
      var k' := if k <= n then k else n;
      TooMany(n, k');
      MoreToChooseFrom(n - c', n - c, k');
      Scale(Choose(n - c', k'), Choose(n - c, k'), Choose(n, k'));
      Ratios(Choose(n - c', k'), Choose(n, k'), Choose(n - c, k'), Choose(n, k'));
    }
  }

  lemma {:induction false} MoreDraws(n: nat, c: nat, k: nat, k': nat)
    requires c <= n && k <= k'
    ensures PassAt(n, c, k) <= PassAt(n, c, k')
    decreases k'
  {
    InUnit(n, c, k');
    if n > 0 && 0 < k < k' {
      MoreDraws(n, c, k, k' - 1);
      if k' <= n {
        TooMany(n, k' - 1);
        TooMany(n, k');
        MissesThinOut(n - c, n, k' - 1);
        Ratios(Choose(n - c, k'), Choose(n, k'), Choose(n - c, k' - 1), Choose(n, k' - 1));
      }
    }
  }
}
