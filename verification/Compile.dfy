/** The graph builder and Compile (graph/graph.go): a graph compiles exactly when
    its wiring is sound, and then the engine's assumptions hold of it. */
module Compile {
  import opened GraphModel
  import opened Digraph

  datatype Problem =
    | EmptyName | ReservedName(n: string) | DuplicateName(n: string)
    | SecondStatic(n: string) | SecondCond(n: string)
    | BadMaxSteps | NegativeTimeout
    | NoBranches(n: string) | UnknownBranch(n: string, b: string) | NestedParallel(n: string, b: string)
    | DuplicateBranch(n: string, b: string)
    | FromEnd | UnknownFrom(n: string) | ToBranch(n: string, to: string) | ToStart(n: string)
    | UnknownTo(n: string, to: string)
    | NoTargets(n: string) | TwoRoutes(n: string)
    | NoStartEdge | BranchHasRoute(n: string) | NoRoute(n: string)
    | Unreachable(n: string)
    | GroupWithoutName | EmptyGroup(id: string) | DuplicateGroup(id: string)
    | ReservedMember(id: string, n: string) | UnknownMember(id: string, n: string)
    | DuplicateMember(id: string, n: string) | InTwoGroups(n: string, a: string, b: string)

  /** Nodes that are drawn together (graph/group.go). */
  datatype Group = Group(id: string, nodes: seq<string>)

  /** The members of the groups, one after another. */
  function Members(groups: seq<Group>): seq<string> {
    if groups == [] then [] else Members(groups[..|groups| - 1]) + groups[|groups| - 1].nodes
  }

  predicate Distinct(ns: seq<string>) {
    forall i, j | 0 <= i < j < |ns| :: ns[i] != ns[j]
  }

  /** What has been declared so far. */
  datatype Draft = Draft(
    nodes: map<string, Node>,
    order: seq<string>,
    statics: map<string, string>,
    cond: map<string, CondEdge>,
    clone: State -> State,
    groups: seq<Group>)
  {
    predicate Named() {
      && (forall n | n in order :: n in nodes)
      && (forall n | n in nodes :: n in order)
      && "" !in nodes && START !in nodes && END !in nodes
    }

    predicate FanOut(n: string) {
      n in nodes && nodes[n].Parallel?
    }

    predicate BranchOk(b: string) {
      b in nodes && nodes[b].Func?
    }

    predicate FanOutOk(n: string)
      requires FanOut(n)
    {
      var bs := nodes[n].branches;
      && bs != []
      && (forall b | b in bs :: BranchOk(b))
      && (forall i, j | 0 <= i < j < |bs| :: bs[i] != bs[j])
    }

    predicate FanOutsOk() {
      forall n | n in order && FanOut(n) :: FanOutOk(n)
    }

    function Branches(): set<string> {
      set n, b | n in order && FanOut(n) && b in nodes[n].branches :: b
    }

    predicate FromOk(from: string) {
      from == START || from in nodes
    }

    predicate ToOk(to: string, branches: set<string>) {
      (to == END || to in nodes) && to !in branches
    }

    predicate StaticsOk(branches: set<string>) {
      forall from | from in statics :: FromOk(from) && ToOk(statics[from], branches)
    }

    predicate CondOk(from: string, branches: set<string>)
      requires from in cond
    {
      && FromOk(from)
      && cond[from].targets != []
      && (forall to | to in cond[from].targets :: ToOk(to, branches))
      && from !in statics
    }

    predicate CondsOk(branches: set<string>) {
      forall from | from in cond :: CondOk(from, branches)
    }

    predicate Routed(n: string) {
      n in statics || n in cond
    }

    predicate RoutesOk(branches: set<string>) {
      && Routed(START)
      && (forall n | n in order :: Routed(n) <==> n !in branches)
    }

    function Successors(n: string): seq<string> {
      (if n in statics then [statics[n]] else [])
      + (if n in cond then cond[n].targets else [])
      + (if FanOut(n) then nodes[n].branches else [])
    }

    function Universe(): set<string> {
      nodes.Keys + {START, END}
    }

    function Arcs(): set<Arc> {
      set n, t | n in Universe() && t in Successors(n) :: Arc(n, t)
    }

    ghost predicate Connected() {
      Reaches(Arcs(), START, END) && forall n | n in order :: Reaches(Arcs(), START, n)
    }

    /** Groups consist of nodes, and no two share one. */
    predicate GroupsOk() {
      (forall n | n in Members(groups) :: n in nodes) && Distinct(Members(groups))
    }

    /** The wiring rules, all of them. */
    ghost predicate Sound() {
      FanOutsOk() && StaticsOk(Branches()) && CondsOk(Branches()) && RoutesOk(Branches()) && Connected()
    }

    function Compiled(maxSteps: nat, topoHash: string, allowTopo: bool): Runnable {
      Runnable(nodes, order, statics, cond, Branches(), clone, maxSteps, topoHash, allowTopo)
    }
  }

  /** COMPILE SOUNDNESS. What compiles is wired as the engine needs it: every
      node that is not a branch has exactly one route, every target is End or a
      node that can be routed to. Runnable.NextStaysWired follows. */
  lemma SoundIsWired(d: Draft, maxSteps: nat, topoHash: string, allowTopo: bool)
    requires d.Named() && d.Sound() && 0 < maxSteps
    ensures d.Compiled(maxSteps, topoHash, allowTopo).Wired()
  {
    var g := d.Compiled(maxSteps, topoHash, allowTopo);
    var bs := d.Branches();
    assert forall b | b in bs :: b in d.nodes;
    forall n | n in g.nodes && n !in g.branches ensures n in g.statics <==> n !in g.cond {
      assert d.Routed(n);
      if n in g.cond { assert d.CondOk(n, bs); }
    }
    forall n | n in g.branches ensures n !in g.statics && n !in g.cond {
      assert n in d.order && !d.Routed(n);
    }
    assert START in g.cond ==> d.CondOk(START, bs);
    forall n | n in g.statics ensures g.statics[n] == END || g.Steppable(g.statics[n]) {
      assert d.ToOk(g.statics[n], bs);
    }
    forall n, t | n in g.cond && t in g.cond[n].targets ensures t == END || g.Steppable(t) {
      assert d.CondOk(n, bs) && d.ToOk(t, bs);
    }
    forall n | n in g.nodes && g.nodes[n].Parallel? ensures g.FanOutWired(n) {
      assert d.FanOut(n) && d.FanOutOk(n);
      forall b | b in d.nodes[n].branches ensures b in bs { assert n in d.order; }
    }
  }

  /** path leads from Start to n, along routes, declared targets and fan-outs. */
  ghost predicate Leads(g: Runnable, path: seq<string>, n: string) {
    && path != [] && path[0] == START && path[|path| - 1] == n
    && forall i | 0 <= i < |path| - 1 :: Linked(g, path[i], path[i + 1])
  }

  predicate Linked(g: Runnable, a: string, b: string) {
    || (a in g.statics && b == g.statics[a])
    || (a in g.cond && b in g.cond[a].targets)
    || (a in g.nodes && g.nodes[a].Parallel? && b in g.nodes[a].branches)
  }

  lemma LinksAreArcs(d: Draft, a: string, b: string)
    requires d.StaticsOk(d.Branches()) && d.CondsOk(d.Branches())
    ensures Arc(a, b) in d.Arcs() <==> Linked(d.Compiled(1, "", false), a, b)
  {
    if a in d.cond { assert d.CondOk(a, d.Branches()); }
    assert b in d.Successors(a) <==> Linked(d.Compiled(1, "", false), a, b);
  }

  lemma PathsLead(d: Draft, maxSteps: nat, topoHash: string, allowTopo: bool, n: string)
    requires d.StaticsOk(d.Branches()) && d.CondsOk(d.Branches())
    ensures Reaches(d.Arcs(), START, n) <==> exists path :: Leads(d.Compiled(maxSteps, topoHash, allowTopo), path, n)
  {
    var g := d.Compiled(maxSteps, topoHash, allowTopo);
    forall a, b ensures Arc(a, b) in d.Arcs() <==> Linked(g, a, b) { LinksAreArcs(d, a, b); }
    if path :| Leads(g, path, n) { assert PathFromTo(d.Arcs(), path, START, n); }
    if p :| PathFromTo(d.Arcs(), p, START, n) { assert Leads(g, p, n); }
  }

  /** COMPILE EXACTNESS. The wiring rules refuse nothing else: a draft meets them
      if and only if its graph is wired as the engine needs it, no conditional
      edge is without targets, and every node and End can be got to. */
  lemma SoundExactly(d: Draft, maxSteps: nat, topoHash: string, allowTopo: bool)
    requires d.Named() && 0 < maxSteps
    ensures var g := d.Compiled(maxSteps, topoHash, allowTopo);
      d.Sound() <==>
        && g.Wired() && (forall n | n in g.cond :: g.cond[n].targets != [])
        && (forall n | n in g.order || n == END :: exists path :: Leads(g, path, n))
  {
    var g := d.Compiled(maxSteps, topoHash, allowTopo);
    if d.Sound() {
      SoundIsWired(d, maxSteps, topoHash, allowTopo);
      forall n | n in g.cond ensures g.cond[n].targets != [] { assert d.CondOk(n, d.Branches()); }
      ReachedExactly(d, maxSteps, topoHash, allowTopo);
    }
    if g.Wired() && (forall n | n in g.cond :: g.cond[n].targets != []) {
      WiredIsSound(d, maxSteps, topoHash, allowTopo);
      ReachedExactly(d, maxSteps, topoHash, allowTopo);
    }
  }

  lemma ReachedExactly(d: Draft, maxSteps: nat, topoHash: string, allowTopo: bool)
    requires d.StaticsOk(d.Branches()) && d.CondsOk(d.Branches())
    ensures var g := d.Compiled(maxSteps, topoHash, allowTopo);
      d.Connected() <==> forall n | n in g.order || n == END :: exists path :: Leads(g, path, n)
  {
    hide Leads, Reaches, Draft.Arcs, Draft.StaticsOk, Draft.CondsOk;
    var g := d.Compiled(maxSteps, topoHash, allowTopo);
    forall n | n in d.order || n == END
      ensures Reaches(d.Arcs(), START, n) <==> exists path :: Leads(g, path, n)
    {
      PathsLead(d, maxSteps, topoHash, allowTopo, n);
    }
    assert d.Connected() <==> forall n | n in d.order || n == END :: Reaches(d.Arcs(), START, n);
  }

  lemma WiredIsSound(d: Draft, maxSteps: nat, topoHash: string, allowTopo: bool)
    requires d.Named() && d.Compiled(maxSteps, topoHash, allowTopo).Wired()
    requires forall n | n in d.cond :: d.cond[n].targets != []
    ensures d.FanOutsOk() && d.StaticsOk(d.Branches()) && d.CondsOk(d.Branches()) && d.RoutesOk(d.Branches())
  {
    var g := d.Compiled(maxSteps, topoHash, allowTopo);
    forall n | n in d.order && d.FanOut(n) ensures d.FanOutOk(n) {
      assert g.FanOutWired(n);
      forall b | b in d.nodes[n].branches ensures d.BranchOk(b) {
        var i :| 0 <= i < |d.nodes[n].branches| && d.nodes[n].branches[i] == b;
      }
    }
    forall from | from in d.cond ensures d.CondOk(from, d.Branches()) {
      forall to | to in d.cond[from].targets ensures d.ToOk(to, d.Branches()) {
        assert to == END || g.Steppable(to);
      }
    }
    forall from | from in d.statics ensures d.FromOk(from) && d.ToOk(d.statics[from], d.Branches()) {
      assert d.statics[from] == END || g.Steppable(d.statics[from]);
    }
  }

  // ----- the checks -----

  lemma {:induction false} MembersAre(gs: seq<Group>)
    ensures forall n :: n in Members(gs) <==> exists i :: 0 <= i < |gs| && n in gs[i].nodes
    ensures Distinct(Members(gs)) <==>
      && (forall i | 0 <= i < |gs| :: Distinct(gs[i].nodes))
      && (forall i, j, n | 0 <= i < j < |gs| && n in gs[i].nodes :: n !in gs[j].nodes)
  {
    if gs != [] {
      hide Distinct;
      var init, last := gs[..|gs| - 1], gs[|gs| - 1].nodes;
      MembersAre(init);
      DistinctJoin(Members(init), last);
      assert forall i | 0 <= i < |init| :: gs[i] == init[i];
      forall n ensures n in Members(gs) <==> exists i :: 0 <= i < |gs| && n in gs[i].nodes {
        if i :| 0 <= i < |gs| && n in gs[i].nodes && i < |init| { assert n in init[i].nodes; }
        if n in last { assert n in gs[|init|].nodes; }
        if n in Members(init) {
          var i :| 0 <= i < |init| && n in init[i].nodes;
          assert n in gs[i].nodes;
        }
      }
    }
  }

  lemma DistinctJoin(a: seq<string>, b: seq<string>)
    ensures Distinct(a + b) <==> Distinct(a) && Distinct(b) && forall n | n in a :: n !in b
  {
    var c := a + b;
    assert forall i | 0 <= i < |a| :: a[i] == c[i];
    assert forall j | 0 <= j < |b| :: b[j] == c[|a| + j];
    if Distinct(c) {
      forall i, j | 0 <= i < |a| && 0 <= j < |b| ensures a[i] != b[j] { assert c[i] != c[|a| + j]; }
    }
    if Distinct(a) && Distinct(b) && forall n | n in a :: n !in b {
      forall i, j | 0 <= i < j < |c| ensures c[i] != c[j] {
        if i < |a| <= j { assert a[i] in a && b[j - |a|] in b; }
      }
    }
  }

  lemma OneMoreMember(ns: seq<string>, n: string)
    ensures Distinct(ns + [n]) <==> Distinct(ns) && n !in ns
  {
    if Distinct(ns + [n]) {
      assert forall i | 0 <= i < |ns| :: ns[i] == (ns + [n])[i] != (ns + [n])[|ns|];
      assert forall i, j | 0 <= i < j < |ns| :: (ns + [n])[i] != (ns + [n])[j];
    }
  }

  /** bindGroups: owner is the group of each member seen so far. */
  method BindGroups(d: Draft) returns (errs: seq<Problem>)
    requires d.Named()
    ensures errs == [] <==> d.GroupsOk()
    ensures errs == [] <==>
      && (forall i, n | 0 <= i < |d.groups| && n in d.groups[i].nodes :: n in d.nodes)
      && (forall i | 0 <= i < |d.groups| :: Distinct(d.groups[i].nodes))
      && (forall i, j, n | 0 <= i < j < |d.groups| && n in d.groups[i].nodes :: n !in d.groups[j].nodes)
  {
    MembersAre(d.groups);
    errs := [];
    var owner: map<string, string> := map[];
    for i := 0 to |d.groups|
      invariant errs == [] <==>
        (forall n | n in Members(d.groups[..i]) :: n in d.nodes) && Distinct(Members(d.groups[..i]))
      invariant errs == [] ==> forall n :: n in owner <==> n in Members(d.groups[..i])
    {
      var id, ns := d.groups[i].id, d.groups[i].nodes;
      ghost var before := Members(d.groups[..i]);
      assert d.groups[..i + 1][..i] == d.groups[..i] && before + ns[..0] == before;
      for j := 0 to |ns|
        invariant errs == [] <==> (forall n | n in before + ns[..j] :: n in d.nodes) && Distinct(before + ns[..j])
        invariant errs == [] ==> forall n :: n in owner <==> n in before + ns[..j]
      {
        var n := ns[j];
        assert before + ns[..j + 1] == before + ns[..j] + [n];
        OneMoreMember(before + ns[..j], n);
        if n == START || n == END {
          errs := errs + [ReservedMember(id, n)];
        } else if n !in d.nodes {
          errs := errs + [UnknownMember(id, n)];
        } else if n in owner {
          errs := errs + [if owner[n] == id then DuplicateMember(id, n) else InTwoGroups(n, owner[n], id)];
        } else {
          owner := owner[n := id];
        }
      }
      assert ns[..|ns|] == ns;
    }
    assert d.groups[..|d.groups|] == d.groups;
  }

  method CheckFanOut(d: Draft, n: string) returns (errs: seq<Problem>, branches: set<string>)
    requires d.FanOut(n)
    ensures errs == [] <==> d.FanOutOk(n)
    ensures errs == [] ==> branches == set b | b in d.nodes[n].branches
  {
    errs, branches := [], {};
    var bs := d.nodes[n].branches;
    if |bs| == 0 { errs := [NoBranches(n)]; }
    var seen := {};
    for i := 0 to |bs|
      invariant seen == set b | b in bs[..i]
      invariant errs == [] <==> (
        && bs != [] && (forall j | 0 <= j < i :: d.BranchOk(bs[j]))
        && (forall j, k | 0 <= j < k < i :: bs[j] != bs[k]))
      invariant errs == [] ==> branches == seen
    {
      var b := bs[i];
      assert bs[..i + 1] == bs[..i] + [b];
      assert b in seen <==> exists j | 0 <= j < i :: bs[j] == b;
      if b !in d.nodes {
        errs := errs + [UnknownBranch(n, b)];
      } else if d.nodes[b].Parallel? {
        errs := errs + [NestedParallel(n, b)];
      } else if b in seen {
        errs := errs + [DuplicateBranch(n, b)];
      } else {
        branches := branches + {b};
      }
      seen := seen + {b};
    }
    assert bs[..|bs|] == bs;
  }

  method CheckFanOuts(d: Draft) returns (errs: seq<Problem>, branches: set<string>)
    ensures errs == [] <==> d.FanOutsOk()
    ensures errs == [] ==> branches == d.Branches()
  {
    errs, branches := [], {};
    for i := 0 to |d.order|
      invariant errs == [] <==> forall j | 0 <= j < i && d.FanOut(d.order[j]) :: d.FanOutOk(d.order[j])
      invariant errs == [] ==>
        branches == set j, b | 0 <= j < i && d.FanOut(d.order[j]) && b in d.nodes[d.order[j]].branches :: b
    {
      var n := d.order[i];
      if n in d.nodes && d.nodes[n].Parallel? {
        var more, bs := CheckFanOut(d, n);
        errs, branches := errs + more, branches + bs;
      }
    }
  }

  function FromProblems(d: Draft, from: string): (errs: seq<Problem>)
    ensures errs == [] <==> d.FromOk(from)
  {
    if from == START || from in d.nodes then [] else if from == END then [FromEnd] else [UnknownFrom(from)]
  }

  function ToProblems(d: Draft, from: string, to: string, branches: set<string>): (errs: seq<Problem>)
    requires d.Named()
    ensures errs == [] <==> d.ToOk(to, branches)
  {
    if to == END || to in d.nodes then
      if to in branches then [ToBranch(from, to)] else []
    else if to == START then [ToStart(from)]
    else [UnknownTo(from, to)]
  }

  method CheckStatics(d: Draft, branches: set<string>) returns (errs: seq<Problem>)
    requires d.Named()
    ensures errs == [] <==> d.StaticsOk(branches)
  {
    errs := [];
    var todo := d.statics.Keys;
    while todo != {}
      invariant todo <= d.statics.Keys
      invariant errs == [] <==> forall n | n in d.statics && n !in todo :: d.FromOk(n) && d.ToOk(d.statics[n], branches)
    {
      var from :| from in todo;
      todo := todo - {from};
      var bad := FromProblems(d, from);
      errs := errs + if bad == [] then ToProblems(d, from, d.statics[from], branches) else bad;
    }
  }

  method CheckCond(d: Draft, from: string, branches: set<string>) returns (errs: seq<Problem>)
    requires d.Named() && from in d.cond
    ensures errs == [] <==> d.CondOk(from, branches)
  {
    errs := FromProblems(d, from);
    if errs != [] { return; }
    var ts := d.cond[from].targets;
    if |ts| == 0 { errs := [NoTargets(from)]; }
    for i := 0 to |ts|
      invariant errs == [] <==> ts != [] && forall j | 0 <= j < i :: d.ToOk(ts[j], branches)
    {
      errs := errs + ToProblems(d, from, ts[i], branches);
    }
    if from in d.statics { errs := errs + [TwoRoutes(from)]; }
  }

  method CheckConds(d: Draft, branches: set<string>) returns (errs: seq<Problem>)
    requires d.Named()
    ensures errs == [] <==> d.CondsOk(branches)
  {
    errs := [];
    var todo := d.cond.Keys;
    while todo != {}
      invariant todo <= d.cond.Keys
      invariant errs == [] <==> forall n | n in d.cond && n !in todo :: d.CondOk(n, branches)
    {
      var from :| from in todo;
      todo := todo - {from};
      var more := CheckCond(d, from, branches);
      errs := errs + more;
    }
  }

  method CheckRoutes(d: Draft, branches: set<string>) returns (errs: seq<Problem>)
    ensures errs == [] <==> d.RoutesOk(branches)
  {
    errs := if START in d.statics || START in d.cond then [] else [NoStartEdge];
    for i := 0 to |d.order|
      invariant errs == [] <==> (
        && d.Routed(START)
        && forall j | 0 <= j < i :: d.Routed(d.order[j]) <==> d.order[j] !in branches)
    {
      var n := d.order[i];
      var s, c := n in d.statics, n in d.cond;
      if n in branches {
        if s || c { errs := errs + [BranchHasRoute(n)]; }
        continue;
      }
      if !s && !c { errs := errs + [NoRoute(n)]; }
    }
  }

  /** The reachability walk of Compile. */
  class Visitor {
    const d: Draft
    var reach: set<string>

    constructor (d: Draft)
      ensures this.d == d && reach == {}
    {
      this.d, reach := d, {};
    }

    /** No arc out of what is reached leads elsewhere, but for the nodes that are
        still being visited. */
    ghost predicate ClosedBut(open: set<string>)
      reads this
    {
      && reach <= d.Universe()
      && (forall n | n in reach :: Reaches(d.Arcs(), START, n))
      && (forall n, t | n in reach && n !in open && t in d.Successors(n) :: t in reach)
    }

    method Visit(n: string, ghost open: set<string>)
      requires ClosedBut(open) && n in d.Universe() && Reaches(d.Arcs(), START, n)
      requires forall m, t | m in d.Universe() && t in d.Successors(m) :: t in d.Universe()
      modifies this
      ensures ClosedBut(open) && old(reach) <= reach && n in reach
      decreases d.Universe() - reach
    {
      if n in reach { return; }
      reach := reach + {n};
      ghost var was := reach;
      var next := d.Successors(n);
      for i := 0 to |next|
        invariant was <= reach && ClosedBut(open + {n})
        invariant forall j | 0 <= j < i :: next[j] in reach
      {
        assert Arc(n, next[i]) in d.Arcs();
        ReachesStep(d.Arcs(), START, n, next[i]);
        assert n in d.Universe() - old(reach) && n !in d.Universe() - reach;
        Visit(next[i], open + {n});
      }
    }
  }

  lemma SoundEdgesStay(d: Draft)
    requires d.Named() && d.FanOutsOk() && d.StaticsOk(d.Branches()) && d.CondsOk(d.Branches())
    ensures forall m, t | m in d.Universe() && t in d.Successors(m) :: t in d.Universe()
  {
    forall m, t | m in d.Universe() && t in d.Successors(m) ensures t in d.Universe() {
      if m in d.statics && t == d.statics[m] {
        assert d.ToOk(t, d.Branches());
      } else if m in d.cond && t in d.cond[m].targets {
        assert d.CondOk(m, d.Branches()) && d.ToOk(t, d.Branches());
      } else {
        assert d.FanOut(m) && d.FanOutOk(m) && d.BranchOk(t);
      }
    }
  }

  lemma WhatIsReached(d: Draft, v: Visitor)
    requires v.d == d && v.ClosedBut({}) && START in v.reach
    ensures forall n :: n in v.reach <==> Reaches(d.Arcs(), START, n)
  {
    forall n ensures n in v.reach <==> Reaches(d.Arcs(), START, n) {
      if Reaches(d.Arcs(), START, n) {
        assert forall a | a in d.Arcs() && a.from in v.reach :: a.to in v.reach;
        ReachableIsHeld(d.Arcs(), v.reach, START, n);
      }
    }
  }

  method CheckReach(d: Draft) returns (errs: seq<Problem>)
    requires d.Named() && d.FanOutsOk() && d.StaticsOk(d.Branches()) && d.CondsOk(d.Branches())
    ensures errs == [] <==> d.Connected()
  {
    SoundEdgesStay(d);
    ReachesSelf(d.Arcs(), START);
    var v := new Visitor(d);
    v.Visit(START, {});
    WhatIsReached(d, v);
    hide Draft.Arcs, Reaches;
    errs := [];
    for i := 0 to |d.order|
      invariant errs == [] <==> forall j | 0 <= j < i :: Reaches(d.Arcs(), START, d.order[j])
    {
      if d.order[i] !in v.reach { errs := errs + [Unreachable(d.order[i])]; }
    }
    if END !in v.reach { errs := errs + [Unreachable(END)]; }
  }

  /** The builder. Mistakes are collected, and reported by Compile together. */
  class Builder {
    var draft: Draft
    var errs: seq<Problem>

    constructor ()
      ensures draft.Named() && errs == []
    {
      draft, errs := Draft(map[], [], map[], map[], s => s, []), [];
    }

    /** Group and GroupWith. */
    method AddGroup(name: string, nodes: seq<string>)
      requires draft.Named()
      modifies this
      ensures draft.Named()
      ensures var isNew := name != "" && nodes != [] && forall d | d in old(draft).groups :: d.id != name;
        if isNew then draft == old(draft).(groups := old(draft).groups + [Group(name, nodes)]) && errs == old(errs)
        else draft == old(draft) && |errs| == |old(errs)| + 1
    {
      if name == "" {
        errs := errs + [GroupWithoutName];
        return;
      }
      if |nodes| == 0 {
        errs := errs + [EmptyGroup(name)];
        return;
      }
      for i := 0 to |draft.groups|
        invariant draft == old(draft) && errs == old(errs)
        invariant forall j | 0 <= j < i :: draft.groups[j].id != name
      {
        if draft.groups[i].id == name {
          errs := errs + [DuplicateGroup(name)];
          return;
        }
      }
      draft := draft.(groups := draft.groups + [Group(name, nodes)]);
    }

    method AddNode(name: string, node: Node)
      requires draft.Named()
      modifies this
      ensures draft.Named()
      ensures var isNew := name != "" && name != START && name != END && name !in old(draft).nodes;
        if isNew then
          draft == old(draft).(nodes := old(draft).nodes[name := node], order := old(draft).order + [name])
          && errs == old(errs)
        else draft == old(draft) && |errs| == |old(errs)| + 1
    {
      if name == "" {
        errs := errs + [EmptyName];
      } else if name == START || name == END {
        errs := errs + [ReservedName(name)];
      } else if name in draft.nodes {
        errs := errs + [DuplicateName(name)];
      } else {
        draft := draft.(nodes := draft.nodes[name := node], order := draft.order + [name]);
      }
    }

    method AddEdge(from: string, to: string)
      requires draft.Named()
      modifies this
      ensures draft.Named()
      ensures if from !in old(draft).statics then draft == old(draft).(statics := old(draft).statics[from := to])
              && errs == old(errs)
              else draft == old(draft) && errs == old(errs) + [SecondStatic(from)]
    {
      if from in draft.statics {
        errs := errs + [SecondStatic(from)];
        return;
      }
      draft := draft.(statics := draft.statics[from := to]);
    }

    method AddConditionalEdge(from: string, edge: CondEdge)
      requires draft.Named()
      modifies this
      ensures draft.Named()
      ensures if from !in old(draft).cond then draft == old(draft).(cond := old(draft).cond[from := edge])
              && errs == old(errs)
              else draft == old(draft) && errs == old(errs) + [SecondCond(from)]
    {
      if from in draft.cond {
        errs := errs + [SecondCond(from)];
        return;
      }
      draft := draft.(cond := draft.cond[from := edge]);
    }

    /** Compile: a graph, or all the problems. It compiles exactly when no
        builder call failed, the options are in range, the groups are disjoint
        and the wiring is sound; and what compiles is wired. */
    method Compile(maxSteps: int, nodeTimeout: int, topoHash: string, allowTopo: bool)
      returns (r: Option<Runnable>, problems: seq<Problem>)
      requires draft.Named()
      ensures r.Some? <==> problems == []
      ensures r.Some? <==> errs == [] && 0 < maxSteps && 0 <= nodeTimeout && draft.GroupsOk() && draft.Sound()
      ensures r.Some? ==> r.value == draft.Compiled(maxSteps, topoHash, allowTopo) && r.value.Wired()
      ensures r.Some? ==>
        && (forall n | n in r.value.order || n == END :: exists path :: Leads(r.value, path, n))
        && (forall b :: b in r.value.branches <==>
              exists n | n in r.value.order :: n in r.value.nodes && r.value.nodes[n].Parallel?
                                               && b in r.value.nodes[n].branches)
    {
      problems := errs + if maxSteps <= 0 then [BadMaxSteps] else [];
      if nodeTimeout < 0 { problems := problems + [NegativeTimeout]; }
      var more := BindGroups(draft);
      problems := problems + more;
      var branches;
      more, branches := CheckFanOuts(draft);
      problems := problems + more;
      more := CheckStatics(draft, branches);
      problems := problems + more;
      more := CheckConds(draft, branches);
      problems := problems + more;
      more := CheckRoutes(draft, branches);
      problems := problems + more;
      if problems == [] {
        problems := CheckReach(draft);
      }
      if problems != [] { return None, problems; }
      SoundExactly(draft, maxSteps, topoHash, allowTopo);
      r := Some(Runnable(draft.nodes, draft.order, draft.statics, draft.cond, branches, draft.clone,
                         maxSteps, topoHash, allowTopo));
    }
  }
}
