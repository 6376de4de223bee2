/** The edges of a compiled graph and which of them close a loop
    (graph/events.go, Topology): a depth-first walk from Start with white, grey
    and black nodes. */
module Topology {
  import opened GraphModel
  import opened Digraph

  datatype TopoEdge = TopoEdge(from: string, to: string, conditional: bool, branch: bool)

  function EdgesTo(from: string, tos: seq<string>, conditional: bool, branch: bool): (es: seq<TopoEdge>)
    ensures |es| == |tos| && forall i | 0 <= i < |es| :: es[i] == TopoEdge(from, tos[i], conditional, branch)
  {
    seq(|tos|, i requires 0 <= i < |tos| => TopoEdge(from, tos[i], conditional, branch))
  }

  /** The edges out of from: fan-out, static edge, conditional targets. */
  function EdgesOut(g: Runnable, from: string): seq<TopoEdge> {
    (if from in g.nodes && g.nodes[from].Parallel? then EdgesTo(from, g.nodes[from].branches, false, true) else [])
    + (if from in g.statics then EdgesTo(from, [g.statics[from]], false, false) else [])
    + (if from in g.cond then EdgesTo(from, g.cond[from].targets, true, false) else [])
  }

  function EdgesOutOf(g: Runnable, froms: seq<string>): seq<TopoEdge> {
    if froms == [] then [] else EdgesOutOf(g, froms[..|froms| - 1]) + EdgesOut(g, froms[|froms| - 1])
  }

  method ListEdges(g: Runnable) returns (edges: seq<TopoEdge>)
    ensures edges == EdgesOutOf(g, [START] + g.order)
  {
    var froms := [START] + g.order;
    edges := [];
    for i := 0 to |froms|
      invariant edges == EdgesOutOf(g, froms[..i])
    {
      assert froms[..i + 1][..i] == froms[..i];
      edges := edges + EdgesOut(g, froms[i]);
    }
    assert froms[..|froms|] == froms;
  }

  datatype Color = White | Grey | Black

  function ColorIn(color: map<string, Color>, n: string): Color {
    if n in color then color[n] else White
  }

  function Arcs(edges: seq<TopoEdge>): set<Arc> {
    set i | 0 <= i < |edges| :: Arc(edges[i].from, edges[i].to)
  }

  function Ends(edges: seq<TopoEdge>): set<string> {
    (set i | 0 <= i < |edges| :: edges[i].from) + (set i | 0 <= i < |edges| :: edges[i].to)
  }

  /** Where the walk is. stack: the grey nodes, from Start down; done: the black
      nodes, in the order they turned black. */
  datatype Progress = Progress(color: map<string, Color>, back: seq<bool>, stack: seq<string>, done: seq<string>)
  {
    function ColorOf(n: string): Color {
      ColorIn(color, n)
    }

    ghost predicate Before(u: string, v: string) {
      exists i, j | 0 <= i < j < |done| :: done[i] == u && done[j] == v
    }

    /** Edge i has been looked at from its source. */
    ghost predicate Followed(edges: seq<TopoEdge>, i: nat)
      requires i < |edges| == |back|
    {
      if back[i] then ColorOf(edges[i].to) != White && Reaches(Arcs(edges), edges[i].to, edges[i].from)
      else ColorOf(edges[i].to) == Black
    }

    ghost predicate StackIsPath(edges: seq<TopoEdge>) {
      && (forall n :: ColorOf(n) == Grey <==> n in stack)
      && (forall i | 0 <= i < |stack| - 1 :: Arc(stack[i], stack[i + 1]) in Arcs(edges))
      && (forall i, j | 0 <= i < j < |stack| :: stack[i] != stack[j])
      && (forall n | n in stack :: Reaches(Arcs(edges), START, n))
    }

    ghost predicate DoneIsFinal(edges: seq<TopoEdge>)
      requires |edges| == |back|
    {
      && (forall n :: ColorOf(n) == Black <==> n in done)
      && (forall i, j | 0 <= i < j < |done| :: done[i] != done[j])
      && (forall n | n in done :: Reaches(Arcs(edges), START, n))
      && (forall i: nat | i < |edges| && ColorOf(edges[i].from) == Black ::
            Followed(edges, i) && (back[i] || Before(edges[i].to, edges[i].from)))
    }

    ghost predicate Valid(edges: seq<TopoEdge>) {
      && |back| == |edges|
      && color.Keys <= Ends(edges) + {START}
      && (forall n | n in color :: color[n] != White)
      && (forall i: nat | i < |edges| && ColorOf(edges[i].from) == White :: !back[i])
      && StackIsPath(edges)
      && DoneIsFinal(edges)
    }

    /** later is where the walk gets to while everything on this stack waits. */
    ghost predicate LeadsTo(edges: seq<TopoEdge>, later: Progress)
      requires |edges| == |back| == |later.back|
    {
      && later.stack == stack
      && done <= later.done
      && color.Keys <= later.color.Keys
      && (forall i: nat | i < |edges| && edges[i].from in color :: later.back[i] == back[i])
    }

    function Enter(n: string): Progress {
      this.(color := color[n := Grey], stack := stack + [n])
    }

    function Leave(n: string): Progress
      requires stack != []
    {
      this.(color := color[n := Black], stack := stack[..|stack| - 1], done := done + [n])
    }

    lemma EnterStack(edges: seq<TopoEdge>, n: string)
      requires Valid(edges) && ColorOf(n) == White
      requires if stack == [] then n == START else Arc(stack[|stack| - 1], n) in Arcs(edges)
      ensures Enter(n).StackIsPath(edges) && n !in done
    {
      hide Reaches, Arcs, Followed, Before;
      if stack == [] {
        ReachesSelf(Arcs(edges), START);
      } else {
        ReachesStep(Arcs(edges), START, stack[|stack| - 1], n);
      }
      assert forall m | m != n :: Enter(n).ColorOf(m) == ColorOf(m);
    }

    lemma EnterKeeps(edges: seq<TopoEdge>, n: string)
      requires Valid(edges) && ColorOf(n) == White && n in Ends(edges) + {START}
      requires if stack == [] then n == START else Arc(stack[|stack| - 1], n) in Arcs(edges)
      ensures Enter(n).Valid(edges)
    {
      hide Reaches, Arcs, StackIsPath;
      var p := Enter(n);
      EnterStack(edges, n);
      assert forall m | m != n :: p.ColorOf(m) == ColorOf(m);
      forall i: nat | i < |edges| && p.ColorOf(edges[i].from) == Black
        ensures p.Followed(edges, i) && (p.back[i] || p.Before(edges[i].to, edges[i].from))
      {
        assert Followed(edges, i);
      }
      assert p.DoneIsFinal(edges);
    }

    /** A grey node reaches the top of the stack. */
    lemma GreyReachesTop(edges: seq<TopoEdge>, m: string)
      requires Valid(edges) && ColorOf(m) == Grey
      ensures stack != [] && Reaches(Arcs(edges), m, stack[|stack| - 1])
    {
      hide Progress.DoneIsFinal, Arcs;
      var k :| 0 <= k < |stack| && stack[k] == m;
      assert PathFromTo(Arcs(edges), stack[k..], m, stack[|stack| - 1]);
    }

    lemma MarkKeeps(edges: seq<TopoEdge>, i: nat)
      requires Valid(edges) && i < |edges| && stack != [] && edges[i].from == stack[|stack| - 1]
      requires ColorOf(edges[i].to) == Grey
      ensures var p := this.(back := back[i := true]); p.Valid(edges) && p.Followed(edges, i)
    {
      hide Reaches, Arcs;
      GreyReachesTop(edges, edges[i].to);
      var p := this.(back := back[i := true]);
      assert edges[i].from in stack && ColorOf(edges[i].from) == Grey;
      assert p.StackIsPath(edges) by { assert forall n :: p.ColorOf(n) == ColorOf(n); }
      forall j: nat | j < |edges| && p.ColorOf(edges[j].from) == Black
        ensures p.Followed(edges, j) && (p.back[j] || p.Before(edges[j].to, edges[j].from))
      {
        assert j != i && ColorOf(edges[j].from) == Black && Followed(edges, j);
        if !back[j] { assert Before(edges[j].to, edges[j].from); }
      }
      assert p.DoneIsFinal(edges);
    }

    lemma TopIsGrey(edges: seq<TopoEdge>)
      requires Valid(edges) && stack != []
      ensures var n := stack[|stack| - 1];
        n in color && ColorOf(n) == Grey && n !in done && n !in stack[..|stack| - 1]
    {
      hide Reaches, Arcs;
      assert stack[|stack| - 1] in stack;
    }

    lemma LeaveStack(edges: seq<TopoEdge>, n: string)
      requires Valid(edges) && stack != [] && stack[|stack| - 1] == n
      ensures Leave(n).StackIsPath(edges)
    {
      hide Reaches, Arcs, DoneIsFinal;
      var p := Leave(n);
      TopIsGrey(edges);
      assert stack == p.stack + [n];
      forall m ensures p.ColorOf(m) == Grey <==> m in p.stack {
        assert m in stack <==> m in p.stack || m == n;
        assert p.ColorOf(m) == if m == n then Black else ColorOf(m);
      }
      forall i | 0 <= i < |p.stack| - 1 ensures Arc(p.stack[i], p.stack[i + 1]) in Arcs(edges) {
        assert Arc(stack[i], stack[i + 1]) in Arcs(edges);
      }
    }

    lemma LeaveKeeps(edges: seq<TopoEdge>, n: string)
      requires Valid(edges) && stack != [] && stack[|stack| - 1] == n
      requires forall i: nat | i < |edges| && edges[i].from == n :: Followed(edges, i)
      ensures Leave(n).Valid(edges)
      ensures forall m :: Leave(n).ColorOf(m) == if m == n then Black else ColorOf(m)
    {
      hide Reaches, Arcs, StackIsPath;
      var p := Leave(n);
      LeaveStack(edges, n);
      TopIsGrey(edges);
      NodeReached(edges, n);
      forall i: nat | i < |edges| && p.ColorOf(edges[i].from) == Black
        ensures p.Followed(edges, i) && (p.back[i] || p.Before(edges[i].to, edges[i].from))
      {
        assert Followed(edges, i);
        if !back[i] { LeaveBefore(edges, n, i); }
      }
      assert p.DoneIsFinal(edges);
    }

    lemma NodeReached(edges: seq<TopoEdge>, n: string)
      requires Valid(edges) && n in stack
      ensures Reaches(Arcs(edges), START, n)
    {}

    lemma LeaveBefore(edges: seq<TopoEdge>, n: string, i: nat)
      requires Valid(edges) && stack != [] && i < |edges| && !back[i] && Followed(edges, i)
      requires edges[i].from == n || ColorOf(edges[i].from) == Black
      ensures Leave(n).Before(edges[i].to, edges[i].from)
    {
      hide Reaches, Arcs, StackIsPath;
      var p := Leave(n);
      if edges[i].from == n {
        var k :| 0 <= k < |done| && done[k] == edges[i].to;
        assert p.done[k] == edges[i].to && p.done[|done|] == n;
      } else {
        var j, k :| 0 <= j < k < |done| && done[j] == edges[i].to && done[k] == edges[i].from;
        assert p.done[j] == edges[i].to && p.done[k] == edges[i].from;
      }
    }
  }

  /** The walk itself, with progress as its variables. */
  class Walk {
    const edges: seq<TopoEdge>
    var color: map<string, Color>
    var back: seq<bool>
    ghost var stack: seq<string>
    ghost var done: seq<string>

    constructor (edges: seq<TopoEdge>)
      ensures this.edges == edges && At() == Progress(map[], seq(|edges|, _ => false), [], [])
    {
      this.edges, color, back, stack, done := edges, map[], seq(|edges|, _ => false), [], [];
    }

    ghost function At(): Progress
      reads this
    {
      Progress(color, back, stack, done)
    }

    /** dfs: everything reachable from n through white nodes turns black; an edge
        into a grey node is marked. */
    method Dfs(n: string)
      requires At().Valid(edges) && ColorIn(color, n) == White && n in Ends(edges) + {START}
      requires if stack == [] then n == START else Arc(stack[|stack| - 1], n) in Arcs(edges)
      modifies this
      ensures At().Valid(edges) && old(At()).LeadsTo(edges, At()) && ColorIn(color, n) == Black
      decreases Ends(edges) + {START} - color.Keys, 0
    {
      hide Progress.StackIsPath, Progress.DoneIsFinal, Progress.Followed, Reaches, Arcs, Ends;
      ghost var p0 := At();
      p0.EnterKeeps(edges, n);
      color, stack := color[n := Grey], stack + [n];
      assert n !in p0.color.Keys && n in color.Keys;
      FollowAll(n);
      At().LeaveKeeps(edges, n);
      color, stack, done := color[n := Black], stack[..|stack| - 1], done + [n];
      assert stack == p0.stack;
    }

    /** All edges out of n, which is on top of the stack. */
    method FollowAll(n: string)
      requires At().Valid(edges) && stack != [] && n == stack[|stack| - 1]
      requires forall j: nat | j < |edges| && edges[j].from == n :: !back[j]
      modifies this
      ensures At().Valid(edges) && stack == old(stack) && old(done) <= done && old(color.Keys) <= color.Keys
      ensures forall j: nat | j < |edges| && edges[j].from == n :: At().Followed(edges, j)
      ensures forall j: nat | j < |edges| && edges[j].from != n && edges[j].from in old(color) ::
                back[j] == old(back[j])
      decreases Ends(edges) + {START} - color.Keys, 2
    {
      hide Progress.StackIsPath, Progress.DoneIsFinal, Progress.Followed, Reaches, Arcs, Ends;
      for i := 0 to |edges|
        invariant At().Valid(edges) && stack == old(stack) && old(done) <= done && old(color.Keys) <= color.Keys
        invariant forall j: nat | j < i && edges[j].from == n :: At().Followed(edges, j)
        invariant forall j: nat | j < |edges| && edges[j].from != n && edges[j].from in old(color) ::
                    back[j] == old(back[j])
        invariant forall j: nat | i <= j < |edges| && edges[j].from == n :: !back[j]
      {
        if edges[i].from == n {
          ghost var p := At();
          p.TopIsGrey(edges);
          Follow(i);
          forall j: nat | j < i && edges[j].from == n ensures At().Followed(edges, j) {
            FollowedStays(p, At(), j);
          }
        }
      }
    }

    /** One edge out of the node on top of the stack. */
    method Follow(i: nat)
      requires At().Valid(edges) && i < |edges| && stack != [] && edges[i].from == stack[|stack| - 1] && !back[i]
      modifies this
      ensures At().Valid(edges) && At().Followed(edges, i)
      ensures stack == old(stack) && old(done) <= done && old(color.Keys) <= color.Keys
      ensures forall m :: ColorIn(old(color), m) == Black ==> ColorIn(color, m) == Black
      ensures forall j: nat | j < |edges| && j != i && edges[j].from in old(color) :: back[j] == old(back[j])
      decreases Ends(edges) + {START} - color.Keys, 1
    {
      ghost var p := At();
      assert Arc(edges[i].from, edges[i].to) in Arcs(edges);
      assert edges[i].from in stack && p.ColorOf(edges[i].from) == Grey;
      match ColorIn(color, edges[i].to) {
        case Grey =>
          p.MarkKeeps(edges, i);
          back := back[i := true];
        case White =>
          assert edges[i].to in Ends(edges);
          Dfs(edges[i].to);
          BlackStays(p, At());
        case Black =>
      }
    }

    lemma FollowedStays(p: Progress, q: Progress, j: nat)
      requires p.Valid(edges) && q.Valid(edges) && p.stack == q.stack && p.done <= q.done
      requires j < |edges| && p.Followed(edges, j) && p.back[j] == q.back[j]
      ensures q.Followed(edges, j)
    {
      hide Reaches, Arcs;
      BlackStays(p, q);
      if p.ColorOf(edges[j].to) == Grey { assert edges[j].to in q.stack; }
    }

    lemma BlackStays(p: Progress, q: Progress)
      requires p.Valid(edges) && q.Valid(edges) && p.done <= q.done
      ensures forall m :: ColorIn(p.color, m) == Black ==> ColorIn(q.color, m) == Black
    {
      forall m | ColorIn(p.color, m) == Black ensures ColorIn(q.color, m) == Black {
        assert m in p.done && m in q.done;
      }
    }
  }

  /** The arcs that are not marked Back. */
  function Forward(edges: seq<TopoEdge>, back: seq<bool>): set<Arc>
    requires |edges| == |back|
  {
    set i | 0 <= i < |edges| && !back[i] :: Arc(edges[i].from, edges[i].to)
  }

  ghost predicate Acyclic(arcs: set<Arc>, from: iset<string>) {
    forall p | IsPath(arcs, p) && |p| > 1 && p[0] in from :: p[0] != p[|p| - 1]
  }

  ghost function ReachableFrom(arcs: set<Arc>, u: string): iset<string> {
    iset v | Reaches(arcs, u, v)
  }

  /** The walk is over. */
  ghost predicate Over(edges: seq<TopoEdge>, p: Progress) {
    p.Valid(edges) && p.stack == [] && START in p.done
  }

  lemma EveryReachableIsDone(edges: seq<TopoEdge>, p: Progress, v: string)
    requires Over(edges, p)
    ensures Reaches(Arcs(edges), START, v) <==> v in p.done
  {
    var done := set n | n in p.done;
    if Reaches(Arcs(edges), START, v) {
      forall a | a in Arcs(edges) && a.from in done ensures a.to in done {
        var i: nat :| i < |edges| && a == Arc(edges[i].from, edges[i].to);
        assert p.ColorOf(edges[i].from) == Black;
        assert p.Followed(edges, i);
        assert p.ColorOf(edges[i].to) != Grey;
      }
      ReachableIsHeld(Arcs(edges), done, START, v);
    }
  }

  lemma BeforeIsStrict(p: Progress, u: string, v: string, w: string)
    requires forall i, j | 0 <= i < j < |p.done| :: p.done[i] != p.done[j]
    ensures !p.Before(u, u)
    ensures p.Before(u, v) && p.Before(v, w) ==> p.Before(u, w)
  {
    if p.Before(u, v) && p.Before(v, w) {
      var i, j :| 0 <= i < j < |p.done| && p.done[i] == u && p.done[j] == v;
      var k, l :| 0 <= k < l < |p.done| && p.done[k] == v && p.done[l] == w;
      assert j == k;
    }
  }

  /** Along unmarked edges, nodes turned black ever earlier. */
  lemma {:induction false} ForwardGoesBack(edges: seq<TopoEdge>, p: Progress, path: seq<string>)
    requires Over(edges, p) && IsPath(Forward(edges, p.back), path) && |path| > 1 && path[0] in p.done
    ensures path[|path| - 1] in p.done && p.Before(path[|path| - 1], path[0])
  {
    hide Reaches, Progress.StackIsPath;
    var n := |path| - 1;
    var q := path[..n];
    assert Arc(path[n - 1], path[n]) in Forward(edges, p.back);
    var i: nat :| i < |edges| && !p.back[i] && edges[i].from == path[n - 1] && edges[i].to == path[n];
    if n > 1 {
      ForwardGoesBack(edges, p, q);
      assert q[|q| - 1] == path[n - 1];
    }
    assert p.ColorOf(edges[i].from) == Black;
    assert p.Followed(edges, i) && p.Before(path[n], path[n - 1]);
    BeforeIsStrict(p, path[n], path[n - 1], path[0]);
  }

  /** The marked edges are loop closers: each one's target reaches its source;
      and without them nothing that Start reaches lies on a cycle. */
  ghost predicate MarksLoops(edges: seq<TopoEdge>, back: seq<bool>) {
    && |back| == |edges|
    && (forall i | 0 <= i < |edges| && back[i] ::
          Reaches(Arcs(edges), START, edges[i].from) && Reaches(Arcs(edges), edges[i].to, edges[i].from))
    && Acyclic(Forward(edges, back), ReachableFrom(Arcs(edges), START))
  }

  lemma WalkMarksLoops(edges: seq<TopoEdge>, p: Progress)
    requires Over(edges, p)
    ensures MarksLoops(edges, p.back)
  {
    forall i: nat | i < |edges| && p.back[i]
      ensures Reaches(Arcs(edges), START, edges[i].from) && Reaches(Arcs(edges), edges[i].to, edges[i].from)
    {
      assert p.ColorOf(edges[i].from) != White && p.ColorOf(edges[i].from) != Grey;
      assert p.Followed(edges, i);
    }
    forall path | IsPath(Forward(edges, p.back), path) && |path| > 1 && Reaches(Arcs(edges), START, path[0])
      ensures path[0] != path[|path| - 1]
    {
      EveryReachableIsDone(edges, p, path[0]);
      ForwardGoesBack(edges, p, path);
      BeforeIsStrict(p, path[0], path[0], path[0]);
    }
  }

  /** e is the static edge, a conditional one, or one to a branch, and says so. */
  predicate Declared(g: Runnable, e: TopoEdge) {
    || (!e.conditional && !e.branch && e.from in g.statics && e.to == g.statics[e.from])
    || (e.conditional && !e.branch && e.from in g.cond && e.to in g.cond[e.from].targets)
    || (!e.conditional && e.branch && e.from in g.nodes && g.nodes[e.from].Parallel?
        && e.to in g.nodes[e.from].branches)
  }

  lemma {:induction false} EdgesAreDeclared(g: Runnable, froms: seq<string>, e: TopoEdge)
    ensures e in EdgesOutOf(g, froms) <==> e.from in froms && Declared(g, e)
  {
    if froms != [] {
      var init, last := froms[..|froms| - 1], froms[|froms| - 1];
      EdgesAreDeclared(g, init, e);
      assert froms == init + [last];
      EdgesOutDeclared(g, last, e);
    }
  }

  lemma EdgesOutDeclared(g: Runnable, from: string, e: TopoEdge)
    ensures e in EdgesOut(g, from) <==> e.from == from && Declared(g, e)
  {
    if from in g.nodes && g.nodes[from].Parallel? { InEdgesTo(from, g.nodes[from].branches, false, true, e); }
    if from in g.statics { InEdgesTo(from, [g.statics[from]], false, false, e); }
    if from in g.cond { InEdgesTo(from, g.cond[from].targets, true, false, e); }
  }

  lemma InEdgesTo(from: string, tos: seq<string>, conditional: bool, branch: bool, e: TopoEdge)
    ensures e in EdgesTo(from, tos, conditional, branch) <==>
      e == TopoEdge(from, e.to, conditional, branch) && e.to in tos
  {
    var es := EdgesTo(from, tos, conditional, branch);
    if e.to in tos {
      var i :| 0 <= i < |tos| && tos[i] == e.to;
      assert es[i] == TopoEdge(from, e.to, conditional, branch);
    }
  }

  /** Topology: the edges of the graph, each with its Back mark. */
  method Describe(g: Runnable) returns (edges: seq<TopoEdge>, back: seq<bool>)
    ensures edges == EdgesOutOf(g, [START] + g.order)
    ensures forall e :: e in edges <==> (e.from == START || e.from in g.order) && Declared(g, e)
    ensures MarksLoops(edges, back)
  {
    edges := ListEdges(g);
    var walk := new Walk(edges);
    StartsValid(edges);
    walk.Dfs(START);
    assert walk.stack == [];
    back := walk.back;
    EndsOver(edges, walk.At());
    WalkMarksLoops(edges, walk.At());
    forall e ensures e in edges <==> (e.from == START || e.from in g.order) && Declared(g, e) {
      EdgesAreDeclared(g, [START] + g.order, e);
    }
  }

  lemma StartsValid(edges: seq<TopoEdge>)
    ensures Progress(map[], seq(|edges|, _ => false), [], []).Valid(edges)
  {}

  lemma EndsOver(edges: seq<TopoEdge>, p: Progress)
    requires p.Valid(edges) && p.stack == [] && p.ColorOf(START) == Black
    ensures Over(edges, p)
  {}

  /** The edges listed are the routes and fan-outs of the graph, and no others. */
  lemma {:induction false} EdgesAreRoutes(g: Runnable, froms: seq<string>, a: Arc)
    ensures a in Arcs(EdgesOutOf(g, froms)) <==>
      a.from in froms && (a.to in g.Targets(a.from)
                          || (a.from in g.nodes && g.nodes[a.from].Parallel? && a.to in g.nodes[a.from].branches))
  {
    if froms != [] {
      var init, last := froms[..|froms| - 1], froms[|froms| - 1];
      EdgesAreRoutes(g, init, a);
      ArcsConcat(EdgesOutOf(g, init), EdgesOut(g, last));
      EdgesOutAre(g, last, a);
      assert froms == init + [last];
    }
  }

  lemma ArcsConcat(es: seq<TopoEdge>, fs: seq<TopoEdge>)
    ensures Arcs(es + fs) == Arcs(es) + Arcs(fs)
  {
    forall i | 0 <= i < |fs| ensures Arc(fs[i].from, fs[i].to) in Arcs(es + fs) {
      assert (es + fs)[|es| + i] == fs[i];
    }
    forall i | 0 <= i < |es| ensures Arc(es[i].from, es[i].to) in Arcs(es + fs) {
      assert (es + fs)[i] == es[i];
    }
  }

  lemma EdgesToAre(from: string, tos: seq<string>, cond: bool, branch: bool, a: Arc)
    ensures a in Arcs(EdgesTo(from, tos, cond, branch)) <==> a.from == from && a.to in tos
  {
    var es := EdgesTo(from, tos, cond, branch);
    if a.from == from && a.to in tos {
      var i :| 0 <= i < |tos| && tos[i] == a.to;
      assert es[i].to == a.to;
    }
  }

  lemma EdgesOutAre(g: Runnable, from: string, a: Arc)
    ensures a in Arcs(EdgesOut(g, from)) <==>
      a.from == from && (a.to in g.Targets(from)
                         || (from in g.nodes && g.nodes[from].Parallel? && a.to in g.nodes[from].branches))
  {
    hide Arcs, EdgesTo;
    var fan :=
      if from in g.nodes && g.nodes[from].Parallel? then EdgesTo(from, g.nodes[from].branches, false, true) else [];
    var fixed := if from in g.statics then EdgesTo(from, [g.statics[from]], false, false) else [];
    var cond := if from in g.cond then EdgesTo(from, g.cond[from].targets, true, false) else [];
    ArcsConcat(fan + fixed, cond);
    ArcsConcat(fan, fixed);
    NoArcs();
    if from in g.nodes && g.nodes[from].Parallel? { EdgesToAre(from, g.nodes[from].branches, false, true, a); }
    if from in g.statics { EdgesToAre(from, [g.statics[from]], false, false, a); }
    if from in g.cond { EdgesToAre(from, g.cond[from].targets, true, false, a); }
  }

  lemma NoArcs()
    ensures Arcs([]) == {}
  {}
}
