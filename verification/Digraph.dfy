/** Directed graphs as sets of arcs, and paths in them. */
module Digraph {
  datatype Arc = Arc(from: string, to: string)

  ghost predicate IsPath(arcs: set<Arc>, p: seq<string>) {
    p != [] && forall i | 0 <= i < |p| - 1 :: Arc(p[i], p[i + 1]) in arcs
  }

  ghost predicate PathFromTo(arcs: set<Arc>, p: seq<string>, u: string, v: string) {
    IsPath(arcs, p) && p[0] == u && p[|p| - 1] == v
  }

  ghost predicate Reaches(arcs: set<Arc>, u: string, v: string) {
    exists p :: PathFromTo(arcs, p, u, v)
  }

  lemma ReachesSelf(arcs: set<Arc>, u: string)
    ensures Reaches(arcs, u, u)
  {
    assert PathFromTo(arcs, [u], u, u);
  }

  lemma ReachesStep(arcs: set<Arc>, u: string, v: string, w: string)
    requires Reaches(arcs, u, v) && Arc(v, w) in arcs
    ensures Reaches(arcs, u, w)
  {
    var p :| PathFromTo(arcs, p, u, v);
    assert PathFromTo(arcs, p + [w], u, w);
  }

  /** A set that holds u and the targets of all arcs out of it holds everything
      that u reaches. */
  lemma {:induction false} ClosedHoldsReachable(arcs: set<Arc>, s: set<string>, p: seq<string>)
    requires IsPath(arcs, p) && p[0] in s
    requires forall a | a in arcs && a.from in s :: a.to in s
    ensures forall i | 0 <= i < |p| :: p[i] in s
  {
    if |p| > 1 {
      var q := p[..|p| - 1];
      ClosedHoldsReachable(arcs, s, q);
      assert q[|p| - 2] == p[|p| - 2];
    }
  }

  lemma ReachableIsHeld(arcs: set<Arc>, s: set<string>, u: string, v: string)
    requires u in s && Reaches(arcs, u, v)
    requires forall a | a in arcs && a.from in s :: a.to in s
    ensures v in s
  {
    var p :| PathFromTo(arcs, p, u, v);
    ClosedHoldsReachable(arcs, s, p);
  }
}
