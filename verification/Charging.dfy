/** What node executions charge (graph/report.go, AddCost). */
module Charging {
  /** What the AddCost calls of one attempt come to, by node or branch name: each
      a list of charges, in the order its function makes them. */
  type Charges = string -> seq<real>

  /** What each of the branches charges. */
  function Bills(bs: seq<string>, charges: Charges): seq<real> {
    seq(|bs|, i requires 0 <= i < |bs| => Sum(charges(bs[i])))
  }

  function Sum(xs: seq<real>): real {
    if xs == [] then 0.0 else Sum(xs[..|xs| - 1]) + xs[|xs| - 1]
  }

  lemma {:induction false} SumUpdate(xs: seq<real>, i: nat, x: real)
    requires i < |xs|
    ensures Sum(xs[i := x]) == Sum(xs) - xs[i] + x
  {
    var ys := xs[i := x];
    if i < |xs| - 1 {
      SumUpdate(xs[..|xs| - 1], i, x);
      assert ys[..|xs| - 1] == xs[..|xs| - 1][i := x];
    } else {
      assert ys[..|xs| - 1] == xs[..|xs| - 1];
    }
  }

  lemma {:induction false} SumZero(xs: seq<real>)
    requires forall i | 0 <= i < |xs| :: xs[i] == 0.0
    ensures Sum(xs) == 0.0
  {
    if xs != [] { SumZero(xs[..|xs| - 1]); }
  }

  lemma SumUpTo(xs: seq<real>, k: nat)
    requires k < |xs|
    ensures Sum(xs[..k + 1]) == Sum(xs[..k]) + xs[k]
  {
    assert xs[..k + 1][..k] == xs[..k];
  }

  /** The AddCost calls of a plain node, one after another. */
  method AddAll(xs: seq<real>) returns (cost: real)
    ensures cost == Sum(xs)
  {
    cost := 0.0;
    for i := 0 to |xs|
      invariant cost == Sum(xs[..i])
    {
      SumUpTo(xs, i);
      cost := cost + xs[i];
    }
    assert xs[..|xs|] == xs;
  }
}
