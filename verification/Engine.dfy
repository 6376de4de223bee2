/** Run, Resume, Recover and Fork over a checkpoint store (graph/run.go,
    graph/durable.go), as the imperative code they are. */
module Engine {
  import opened GraphModel
  import opened RunLog
  import opened Ideal
  import opened Runtime
  import FanOut
  import opened Charging
  import opened LogShape

  datatype Checkpoint = Checkpoint(runID: string, state: State, node: string, step: int, path: seq<string>,
                                   prior: seq<StepRec>)

  datatype Error = MaxSteps | NodeError | RouteError | CheckpointError | Cancelled | NotFound | TopologyChanged
    | BadArgument

  function Message(e: Error): (s: string)
    ensures s != ""
  {
    match e
    case MaxSteps => "graph: max steps exceeded"
    case NodeError => "node failed"
    case RouteError => "graph: invalid route"
    case CheckpointError => "graph: checkpoint store failed"
    case Cancelled => "cancelled"
    case NotFound => "graph: run not found in the checkpoint store"
    case TopologyChanged => "graph: the graph changed since the run started"
    case BadArgument => "bad argument"
  }

  datatype Outcome =
    | Finished(state: State)
    | Paused(cp: Checkpoint, question: string)
    | Failed(state: State, error: Error)

  /** held, in memory, is the list that the log holds as logged: all of it, or,
      of an imported run, all of it since the import. */
  predicate Carries<T(==)>(log: seq<Record>, held: seq<T>, logged: seq<T>) {
    if Imported(log) then logged != [] && EndsIn(held, logged[1..]) else held == logged
  }

  predicate EndsIn<T(==)>(xs: seq<T>, ys: seq<T>) {
    |ys| <= |xs| && xs[|xs| - |ys|..] == ys
  }

  lemma CarriesMore<T>(log: seq<Record>, log': seq<Record>, held: seq<T>, logged: seq<T>, more: seq<T>)
    requires Carries(log, held, logged) && Imported(log') == Imported(log)
    ensures Carries(log', held + more, logged + more)
  {
    if Imported(log) {
      assert (logged + more)[1..] == logged[1..] + more;
      var k := |held| - |logged[1..]|;
      assert (held + more)[k..] == held[k..] + more;
    }
  }

  /** cp is the checkpoint of the question that the log is waiting on. */
  predicate IsCheckpointOf(cp: Checkpoint, runID: string, log: seq<Record>) {
    Asks(cp, runID, ReplayLog(log)) && Carries(log, cp.path, ReplayLog(log).path)
    && Carries(log, Top(cp.prior), Logged(log))
  }

  predicate Asks(cp: Checkpoint, runID: string, p: Replay) {
    && p.pending.Some?
    && cp.runID == runID && cp.state == p.state && cp.node == p.pending.value.node
    && cp.step + 1 == p.pending.value.step
  }

  /** The executions that a log reports. */
  function Logged(log: seq<Record>): seq<StepRec> {
    ReplayLog(log).steps
  }

  function StepsOf(b: Body): seq<StepRec> {
    match b
    case NodeCommit(n, _, _, _, _, c) => [StepRec(n, "", c, false, "")]
    case Interrupt(n, _, q, _, c) => [StepRec(n, "", c, true, q)]
    case _ => []
  }

  lemma LoggedSnoc(log: seq<Record>, r: Record)
    ensures Logged(log + [r]) == Logged(log) + StepsOf(r.body)
  {
    ReplaySnoc(log, r);
  }

  /** A log reports no branch. */
  lemma {:induction false} LoggedIsTop(log: seq<Record>)
    ensures Top(Logged(log)) == Logged(log)
  {
    if log != [] {
      var prev, r := log[..|log| - 1], log[|log| - 1];
      LoggedIsTop(prev);
      assert log == prev + [r];
      LoggedSnoc(prev, r);
      TopJoins(Logged(prev), StepsOf(r.body));
      if StepsOf(r.body) != [] { assert Top(StepsOf(r.body)[..0]) == []; }
    }
  }

  /** A call's report, this process's part after the others', is what the log
      reports, but for the branches of fan-outs. */
  ghost predicate Reported(rec: Recorder, log: seq<Record>)
    reads rec
  {
    Carries(log, rec.path, ReplayLog(log).path) && Carries(log, Top(rec.prior + rec.steps), Logged(log))
  }

  /** held has grown from held0 by what logged has grown from logged0. */
  predicate GoesOn(held: seq<string>, held0: seq<string>, logged0: seq<string>, logged: seq<string>) {
    logged0 <= logged && held == held0 + logged[|logged0|..]
  }

  /** The report shows path, gone on from held0 as the log's from logged0, and
      steps. */
  ghost predicate Shows(rec: Recorder, log: seq<Record>, held0: seq<string>, logged0: seq<string>, path: seq<string>,
          steps: seq<StepRec>)
    reads rec
  {
    && Carries(log, rec.path, path) && GoesOn(rec.path, held0, logged0, path)
    && Carries(log, Top(rec.prior + rec.steps), steps)
  }

  /** The report is what the log reports. */
  ghost predicate Complete(rec: Recorder, log: seq<Record>, held0: seq<string>, logged0: seq<string>)
    reads rec
  {
    Shows(rec, log, held0, logged0, ReplayLog(log).path, Logged(log))
  }

  /** The report has, over what the log reports, the attempt that failed. */
  ghost predicate OneAhead(rec: Recorder, log: seq<Record>, held0: seq<string>, logged0: seq<string>)
    reads rec
  {
    && rec.steps != [] && Last(rec.steps).node == ReplayLog(log).next
    && Shows(rec, log, held0, logged0, ReplayLog(log).path + [ReplayLog(log).next], Logged(log) + [Last(rec.steps)])
  }

  /** The path has, over the log's, the node whose start could not be logged. */
  ghost predicate BarelyBegun(rec: Recorder, log: seq<Record>, held0: seq<string>, logged0: seq<string>)
    reads rec
  {
    Shows(rec, log, held0, logged0, ReplayLog(log).path + [ReplayLog(log).next], Logged(log))
  }

  /** How a call's report stands to the log that the call leaves: every
      execution is in it once, whichever way the call ended. An execution that
      failed is not in the log; of one whose record could not be appended, the
      log may know or not. */
  ghost predicate Accounted(rec: Recorder, log: seq<Record>, res: Outcome, held0: seq<string>, logged0: seq<string>)
    reads rec
  {
    match res
    case Finished(_) => Complete(rec, log, held0, logged0)
    case Paused(_, _) => Complete(rec, log, held0, logged0)
    case Failed(_, e) =>
      match e
      case MaxSteps => Complete(rec, log, held0, logged0)
      case Cancelled => Complete(rec, log, held0, logged0)
      case NodeError => OneAhead(rec, log, held0, logged0)
      case RouteError => OneAhead(rec, log, held0, logged0)
      case CheckpointError =>
        || Complete(rec, log, held0, logged0) || OneAhead(rec, log, held0, logged0)
        || BarelyBegun(rec, log, held0, logged0)
      case _ => false
  }

  /** There is no report. */
  predicate Blank(rec: Recorder)
    reads rec
  {
    rec.prior == [] && rec.steps == [] && rec.path == []
  }

  /** The loop is at this state, node, step, path and answer, and so is the log. */
  ghost predicate Positioned(g: Runnable, log: seq<Record>, s: State, cur: string, step: nat, path: seq<string>,
          ans: Option<string>)
    requires g.Wired()
  {
    && log != [] && Reachable(g, log)
    && var p := ReplayLog(log);
       && p.started && !p.Finished() && !p.Waiting()
       && p.state == s && p.next == cur && p.step == step && p.path == path && p.answer == ans
  }

  /** Nothing can move the run on but another answer or another attempt. */
  ghost predicate Settled(g: Runnable, log: seq<Record>)
    requires g.Wired()
  {
    Halted(g, Abs(log).used + AsSeq(ReplayLog(log).answer), Abs(log))
  }

  /** The errors that a run at p can end in, and the state that goes with each. */
  ghost predicate FailsAs(g: Runnable, p: Replay, s: State, e: Error)
    requires g.Wired()
  {
    match e
    case MaxSteps => p.next != END && p.step >= g.maxSteps && s == p.state
    case Cancelled => p.next != END && s == p.state
    case NodeError => g.Steppable(p.next) && p.step < g.maxSteps
    case RouteError =>
      && g.Steppable(p.next) && p.step < g.maxSteps
      && g.Eval(p.next, p.step + 1, p.state, p.answer) == Done(s)
      && p.next !in g.statics
      && (p.next !in g.cond ||
          match g.cond[p.next].route(s)
          case None => true
          case Some(t) => t !in g.cond[p.next].targets)
    case CheckpointError => true
    case _ => false
  }

  /** Nothing interfered: the run stands still, and if it failed, the step limit,
      a route or the node itself is why. */
  ghost predicate Undisturbed(g: Runnable, log: seq<Record>, res: Outcome)
    requires g.Wired()
  {
    && Settled(g, log)
    && (res.Failed? ==>
          match res.error
          case MaxSteps => true
          case RouteError => true
          case NodeError =>
            var p := ReplayLog(log);
            g.Steppable(p.next) && g.Eval(p.next, p.step + 1, p.state, p.answer).Fail?
          case _ => false)
  }

  /** The visit counts are those of the path. */
  ghost predicate Tallied(g: Runnable, visits: map<string, nat>, path: seq<string>) {
    forall n | g.Steppable(n) :: Count(visits, n) == multiset(path)[n]
  }

  lemma StaysPositioned(g: Runnable, log: seq<Record>, r: Record, s: State, cur: string, step: nat, path: seq<string>,
          ans: Option<string>)
    requires g.Wired() && Positioned(g, log, s, cur, step, path, ans) && Legal(g, log, r)
    requires r.body.NodeStart? || r.body.Session? || r.body.Edge? || r.body.Recover?
    ensures Positioned(g, log + [r], s, cur, step, path, ans)
  {
    ReachableSnoc(g, log, r);
  }

  /** Out of steps, or the execution fails or has no route: the reference run
      stands still here as well. */
  lemma StuckIsSettled(g: Runnable, log: seq<Record>, s: State, cur: string, step: nat, path: seq<string>,
          ans: Option<string>)
    requires g.Wired() && Positioned(g, log, s, cur, step, path, ans) && g.Steppable(cur)
    requires step >= g.maxSteps || (
      match g.Eval(cur, step + 1, s, ans)
      case Done(s') => g.Next(cur, s').None?
      case Ask(_, _) => false
      case Fail => true)
    ensures Settled(g, log)
  {
    hide Abs, ReplayLog, Reachable, Halted;
    ReplayRestores(g, log);
    ReachableIsConsistent(g, log);
    StuckIsHalted(g, ReplayLog(log), Abs(log));
  }

  lemma StuckIsHalted(g: Runnable, p: Replay, c: Config)
    requires g.Wired() && Restores(p, c) && (p.pending.Some? <==> p.answer.Some?) && g.Steppable(p.next)
    requires p.step >= g.maxSteps || (
      match g.Eval(p.next, p.step + 1, p.state, p.answer)
      case Done(s') => g.Next(p.next, s').None?
      case Ask(_, _) => false
      case Fail => true)
    ensures Halted(g, c.used + AsSeq(p.answer), c)
  {
    hide Runnable.Wired;
    if p.answer.Some? { assert (c.used + [p.answer.value])[|c.used|] == p.answer.value; }
  }

  lemma EndIsSettled(g: Runnable, log: seq<Record>, s: State, step: nat, path: seq<string>, ans: Option<string>)
    requires g.Wired() && Positioned(g, log, s, END, step, path, ans)
    ensures Settled(g, log) && ans.None?
  {
    ReplayRestores(g, log);
    ReachableIsConsistent(g, log);
  }

  lemma {:induction false} WaitingIsSettled(g: Runnable, log: seq<Record>)
    requires g.Wired() && Reachable(g, log) && ReplayLog(log).Waiting()
    ensures Settled(g, log)
  {
    ReplayRestores(g, log);
    assert Abs(log).used + [] == Abs(log).used;
  }

  /** What one attempt at node n charges, its branches included. */
  function Charge(g: Runnable, n: string, charges: Charges): real {
    Sum(charges(n)) + if n in g.nodes && g.nodes[n].Parallel? then Sum(Bills(g.nodes[n].branches, charges)) else 0.0
  }

  /** Calls the node's function, or fans out. The environment may fail it. */
  method Perform(g: Runnable, w: CkWriter, rec: Recorder, cur: string, step: nat, s: State, ghost path: seq<string>,
          ans: Option<string>, charges: Charges)
    returns (out: NodeOut, cost: real)
    requires g.Wired() && g.Steppable(cur) && w.InSync() && 0 < step <= g.maxSteps
    requires Positioned(g, w.Log(), s, cur, step - 1, path, ans)
    requires OpenNode(w.Log()) == Some((cur, step))
    modifies w, w.store, rec`steps, rec`visits
    ensures OpenNode(w.Log()) == Some((cur, step))
    ensures w.InSync() && w.store.WentOn(w.runID)
    ensures Positioned(g, w.Log(), s, cur, step - 1, path, ans)
    ensures out.Fail? || out == g.Eval(cur, step, s, ans)
    ensures out.Fail? && w.store.faults == old(w.store.faults) ==> g.Eval(cur, step, s, ans).Fail?
    ensures w.failed && !old(w.failed) ==> w.store.faults > old(w.store.faults)
    ensures forall n | n !in g.branches :: Count(rec.visits, n) == Count(old(rec.visits), n)
    ensures cost == Sum(charges(cur))
            && TotalCost(rec.steps) + cost == TotalCost(old(rec.steps)) + Charge(g, cur, charges)
    ensures Top(rec.steps) == Top(old(rec.steps)) && Logged(w.Log()) == Logged(old(w.Log()))
  {
    if g.nodes[cur].Func? {
      LogSessions(g, w, cur, step, s, path, ans);
      out := g.nodes[cur].fn(step, s, ans);
      if * {
        out := Fail;
        Fault(w.store);
      }
    } else {
      assert g.FanOutWired(cur);
      out := FanOut.Run(g, w.store, rec, cur, step, s, ans, charges);
    }
    cost := AddAll(charges(cur));
  }

  /** exec: one attempt at node cur, counted and reported. A Done or an Ask is
      what the node computes; an attempt may also fail for reasons of its own,
      leaving any state behind. The report gains the node's own step last, with
      what the node charged, and in all what the attempt charged. */
  method Exec(g: Runnable, w: CkWriter, rec: Recorder, cur: string, step: nat, s: State, ghost path: seq<string>,
          ans: Option<string>, charges: Charges, ghost held: seq<string>)
    returns (out: NodeOut, left: State)
    requires g.Wired() && g.Steppable(cur) && w.InSync() && !w.failed && 0 < step <= g.maxSteps
    requires Positioned(g, w.Log(), s, cur, step - 1, path, ans) && Tallied(g, rec.visits, held)
    requires OpenNode(w.Log()) == Some((cur, step))
    modifies w, w.store, rec`steps, rec`visits
    ensures OpenNode(w.Log()) == Some((cur, step))
    ensures w.InSync() && w.store.WentOn(w.runID)
    ensures Positioned(g, w.Log(), s, cur, step - 1, path, ans)
    ensures out.Fail? || (out == g.Eval(cur, step, s, ans) && left == out.state)
    ensures !out.Fail? ==>
      match g.nodes[cur]
      case Func(fn) => out == fn(step, s, ans)
      case Parallel(bs, merge) =>
        exists rs: seq<State> | |rs| == |bs| ::
          && (forall i | 0 <= i < |rs| ::
                bs[i] in g.nodes && g.nodes[bs[i]].Func? && g.nodes[bs[i]].fn(step, g.clone(s), ans) == Done(rs[i]))
          && out == merge(s, rs)
    ensures out.Fail? && w.store.faults == old(w.store.faults) ==> g.Eval(cur, step, s, ans).Fail?
    ensures w.failed ==> w.store.faults > old(w.store.faults)
    ensures Tallied(g, rec.visits, held + [cur])
    ensures rec.steps != []
    ensures Last(rec.steps) == StepRec(cur, "", Sum(charges(cur)), out.Ask?, if out.Ask? then out.question else "")
    ensures TotalCost(rec.steps) == TotalCost(old(rec.steps)) + Charge(g, cur, charges)
    ensures Top(rec.steps) == Top(old(rec.steps)) + [Last(rec.steps)] && Logged(w.Log()) == Logged(old(w.Log()))
  {
    hide OpenNode, Steered, Runnable.Wired, Runnable.Eval, Positioned, Logged, Charge;
    g.EvalIs(cur, step, s, ans);
    var _ := rec.Visit(cur);
    var cost;
    out, cost := Perform(g, w, rec, cur, step, s, path, ans, charges);
    left := *;
    if !out.Fail? { left := out.state; }
    rec.Add(StepRec(cur, "", cost, out.Ask?, if out.Ask? then out.question else ""));
  }

  lemma {:induction false} SessionPositions(g: Runnable, log: seq<Record>, r: Record, s: State, cur: string, step: nat,
          path: seq<string>, ans: Option<string>)
    requires g.Wired() && 0 < step <= g.maxSteps && g.Steppable(cur) && Positioned(g, log, s, cur, step - 1, path, ans)
    requires r.seq_ == |log| + 1 && r.body.Session? && r.body.node == cur && r.body.step == step && r.body.id != ""
    requires OpenNode(log) == Some((cur, step))
    ensures Positioned(g, log + [r], s, cur, step - 1, path, ans) && OpenNode(log + [r]) == Some((cur, step))
    ensures Logged(log + [r]) == Logged(log)
  {
    OpenSnoc(log, r);
    LoggedSnoc(log, r);
    StaysPositioned(g, log, r, s, cur, step - 1, path, ans);
  }

  /** noteSession: an append that fails is sticky, and the commit reports it. */
  method LogSessions(g: Runnable, w: CkWriter, cur: string, step: nat, s: State, ghost path: seq<string>,
          ans: Option<string>)
    requires g.Wired() && g.Steppable(cur) && w.InSync() && 0 < step <= g.maxSteps
    requires Positioned(g, w.Log(), s, cur, step - 1, path, ans)
    requires OpenNode(w.Log()) == Some((cur, step))
    modifies w, w.store
    ensures OpenNode(w.Log()) == Some((cur, step))
    ensures w.InSync() && w.store.WentOn(w.runID)
    ensures Positioned(g, w.Log(), s, cur, step - 1, path, ans)
    ensures w.failed && !old(w.failed) ==> w.store.faults > old(w.store.faults)
    ensures Logged(w.Log()) == Logged(old(w.Log()))
  {
    hide OpenNode, Steered, Runnable.Wired, Positioned, Logged;
    var k: nat := *;
    while k > 0
      invariant w.InSync() && w.store.WentOn(w.runID)
      invariant Logged(w.Log()) == Logged(old(w.Log()))
      invariant Positioned(g, w.Log(), s, cur, step - 1, path, ans) && OpenNode(w.Log()) == Some((cur, step))
      invariant w.failed && !old(w.failed) ==> w.store.faults > old(w.store.faults)
    {
      var id: string := *;
      if id != "" {
        ghost var log := w.Log();
        ghost var r := Record(|log| + 1, Session(cur, step, id));
        SessionPositions(g, log, r, s, cur, step, path, ans);
        var _ := w.Append(Session(cur, step, id));
      }
      k := k - 1;
    }
  }

  lemma CommitPositions(g: Runnable, log: seq<Record>, s: State, cur: string, step: nat, path: seq<string>,
          ans: Option<string>, r: Record)
    requires g.Wired() && Positioned(g, log, s, cur, step, path, ans) && Legal(g, log, r) && r.body.NodeCommit?
    ensures Positioned(g, log + [r], r.body.state, r.body.next, step + 1, path + [cur], None)
  {
    ReachableSnoc(g, log, r);
  }

  lemma {:induction false} InterruptPauses(g: Runnable, log: seq<Record>, s: State, cur: string, step: nat,
          path: seq<string>, ans: Option<string>, r: Record)
    requires g.Wired() && Positioned(g, log, s, cur, step, path, ans) && Legal(g, log, r) && r.body.Interrupt?
    ensures Reachable(g, log + [r])
    ensures var p := ReplayLog(log + [r]);
      p.Waiting() && p.pending == Some(Pending(cur, step + 1, r.body.question)) && p.state == r.body.state
      && p.path == path + [cur]
    ensures Logged(log + [r]) == Logged(log) + StepsOf(r.body)
  {
    hide Runnable.Wired;
    LoggedSnoc(log, r);
    ReachableSnoc(g, log, r);
  }

  /** Where a segment of a run stops: on a log that broke, or where the log
      says. */
  ghost predicate Stopped(g: Runnable, log: seq<Record>, runID: string, res: Outcome, broken: bool)
    requires g.Wired()
  {
    && log != [] && Reachable(g, log)
    && (broken ==> res.Failed?)
    && var p := ReplayLog(log);
       && (!broken ==> p.started && !p.Finished())
       && match res
          case Finished(s) => p.next == END && p.state == s && !p.Waiting()
          case Paused(cp, q) => p.Waiting() && p.pending.value.question == q && Asks(cp, runID, p)
          case Failed(s, e) => (!broken ==> !p.Waiting()) && FailsAs(g, p, s, e)
  }

  lemma {:induction false} CommitThenEdge(g: Runnable, log: seq<Record>, s0: State, cur: string, step: nat,
          path: seq<string>, ans: Option<string>, s: State, next: string, att: nat, cost: real, commit: Record,
          edge: Record)
    requires g.Wired() && g.Steppable(cur) && 0 < step <= g.maxSteps
    requires Positioned(g, log, s0, cur, step - 1, path, ans) && OpenNode(log) == Some((cur, step))
    requires g.Eval(cur, step, s0, ans) == Done(s) && g.Next(cur, s) == Some(next)
    requires commit == Record(|log| + 1, NodeCommit(cur, step, att, s, next, cost))
    requires if Imported(log) then 0 < att else att == multiset(path)[cur] + 1
    requires edge == Record(|log| + 2, Edge(cur, next, step))
    ensures Positioned(g, log + [commit], s, next, step, path + [cur], None)
    ensures Positioned(g, log + [commit] + [edge], s, next, step, path + [cur], None)
    ensures Reachable(g, log + [commit]) && Reachable(g, log + [commit] + [edge])
    ensures Logged(log + [commit] + [edge]) == Logged(log) + [StepRec(cur, "", cost, false, "")]
    ensures Behind(log, log, path, cur)
    ensures Ahead(log, log + [commit], path, cur, StepRec(cur, "", cost, false, ""))
    ensures Ahead(log, log + [commit] + [edge], path, cur, StepRec(cur, "", cost, false, ""))
  {
    LoggedSnoc(log, commit);
    LoggedSnoc(log + [commit], edge);
    ReachableIsConsistent(g, log);
    CommitPositions(g, log, s0, cur, step - 1, path, ans, commit);
    StaysPositioned(g, log + [commit], edge, s, next, step, path + [cur], None);
  }

  /** Since log0 no execution was logged; the run is at cur still. */
  ghost predicate Behind(log0: seq<Record>, log: seq<Record>, path: seq<string>, cur: string) {
    Logged(log) == Logged(log0) && ReplayLog(log).path == path && ReplayLog(log).next == cur
  }

  /** Since log0 one execution of cur was logged. */
  ghost predicate Ahead(log0: seq<Record>, log: seq<Record>, path: seq<string>, cur: string, s: StepRec) {
    Logged(log) == Logged(log0) + [s] && ReplayLog(log).path == path + [cur]
  }

  /** What the log may know of an execution of cur that ended in e: nothing, or,
      if it is the log that failed, that very execution, s. */
  ghost predicate FellShort(e: Error, log0: seq<Record>, log: seq<Record>, path: seq<string>, cur: string, s: StepRec) {
    || ((e == NodeError || e == RouteError || e == CheckpointError) && Behind(log0, log, path, cur))
    || (e == CheckpointError && Ahead(log0, log, path, cur, s))
  }

  /** logCommit: the commit, before the run moves on, and the edge after it. */
  method LogCommit(g: Runnable, w: CkWriter, rec: Recorder, cur: string, step: nat, ghost s0: State,
          ghost ans: Option<string>, s: State, next: string, ghost path: seq<string>, ghost held: seq<string>)
    returns (ok: bool)
    requires g.Wired() && g.Steppable(cur) && w.InSync() && 0 < step <= g.maxSteps && rec.steps != []
    requires Positioned(g, w.Log(), s0, cur, step - 1, path, ans)
    requires g.Eval(cur, step, s0, ans) == Done(s) && g.Next(cur, s) == Some(next)
    requires Tallied(g, rec.visits, held + [cur]) && (Imported(w.Log()) || held == path)
    requires OpenNode(w.Log()) == Some((cur, step))
    modifies w, w.store
    ensures w.InSync() && w.store.WentOn(w.runID) && ok == !w.failed
    ensures Reachable(g, w.Log()) && w.Log() != []
    ensures ok ==> Positioned(g, w.Log(), s, next, step, path + [cur], None)
    ensures ok ==> (w.Log() == old(w.Log())
      + [Record(|old(w.Log())| + 1, NodeCommit(cur, step, rec.Peek(cur), s, next, Last(rec.steps).cost))]
      + [Record(|old(w.Log())| + 2, Edge(cur, next, step))])
    ensures ok ==> Logged(w.Log()) == Logged(old(w.Log())) + [StepRec(cur, "", Last(rec.steps).cost, false, "")]
    ensures !ok && !old(w.failed) ==> w.store.faults > old(w.store.faults)
    ensures !ok ==>
      || Behind(old(w.Log()), w.Log(), path, cur)
      || Ahead(old(w.Log()), w.Log(), path, cur, StepRec(cur, "", Last(rec.steps).cost, false, ""))
  {
    hide OpenNode, Steered, Runnable.Wired, Settled, Logged, Positioned, Imported, Reachable;
    PositionedAt(g, w.Log(), s0, cur, step - 1, path, ans);
    if w.failed { return false; }
    ghost var log := w.Log();
    var b, e := NodeCommit(cur, step, rec.Peek(cur), s, next, Last(rec.steps).cost), Edge(cur, next, step);
    assert b.attempt == multiset(held)[cur] + 1;
    hide Tallied, StepsOf;
    ghost var log1 := log + [Record(|log| + 1, b)];
    ghost var log2 := log1 + [Record(|log| + 2, e)];
    CommitThenEdge(g, log, s0, cur, step, path, ans, s, next, b.attempt, b.cost, Record(|log| + 1, b),
                   Record(|log| + 2, e));
    ok := w.Append(b);
    assert w.Log() == log || w.Log() == log1;
    if !ok { return; }
    assert |log1| + 1 == |log| + 2;
    ok := w.Append(e);
    assert w.Log() == log1 || w.Log() == log2;
  }

  /** What one turn of the loop leads to. */
  datatype Turn = GoOn(state: State, next: string) | Stop(res: Outcome)

  /** What the loop does with the outcome of an attempt at cur. */
  method Conclude(g: Runnable, w: CkWriter, rec: Recorder, cur: string, step: nat, s: State, ans: Option<string>,
          out: NodeOut, left: State, ghost path: seq<string>, ghost held: seq<string>)
    returns (t: Turn)
    requires g.Wired() && g.Steppable(cur) && w.InSync() && 0 < step <= g.maxSteps && rec.steps != []
    requires Positioned(g, w.Log(), s, cur, step - 1, path, ans)
    requires Tallied(g, rec.visits, held + [cur]) && (Imported(w.Log()) || held == path)
    requires !out.Fail? ==> out == g.Eval(cur, step, s, ans)
    requires OpenNode(w.Log()) == Some((cur, step))
    requires Last(rec.steps) == StepRec(cur, "", Last(rec.steps).cost, out.Ask?, if out.Ask? then out.question else "")
    modifies w, w.store
    ensures w.InSync() && w.store.WentOn(w.runID)
    ensures t.GoOn? || t.res.Paused? ==> Logged(w.Log()) == Logged(old(w.Log())) + [Last(rec.steps)]
    ensures t.Stop? && t.res.Paused? ==> ReplayLog(w.Log()).path == path + [cur]
    ensures t.Stop? && t.res.Paused? ==> t.res.cp.prior == rec.prior + rec.steps && t.res.cp.path == rec.path
    ensures t.GoOn? ==> !w.failed && Positioned(g, w.Log(), t.state, t.next, step, path + [cur], None)
    ensures t.GoOn? ==> t.next == END || g.Steppable(t.next)
    ensures t.Stop? ==> Stopped(g, w.Log(), w.runID, t.res, w.failed) && !t.res.Finished?
    ensures (t.Stop? && t.res.Failed? && w.store.faults == old(w.store.faults) && !old(w.failed)
             && (out.Fail? ==> g.Eval(cur, step, s, ans).Fail?)) ==> Undisturbed(g, w.Log(), t.res)
    ensures t.Stop? && t.res.Paused? ==> Undisturbed(g, w.Log(), t.res)
    ensures t.Stop? && t.res.Failed? ==>
      FellShort(t.res.error, old(w.Log()), w.Log(), path, cur, Last(rec.steps))
    ensures w.failed && !old(w.failed) ==> w.store.faults > old(w.store.faults)
  {
    hide OpenNode, Steered, Runnable.Wired, Settled, Logged, Top;
    match out {
      case Fail =>
        if g.Eval(cur, step, s, ans).Fail? { StuckIsSettled(g, w.Log(), s, cur, step - 1, path, ans); }
        t := Stop(Failed(left, NodeError));
      case Ask(s', q) =>
        var res := Pause(g, w, rec, cur, step, s, ans, s', q, path);
        t := Stop(res);
      case Done(s') =>
        var nx := g.Next(cur, s');
        if nx.None? {
          StuckIsSettled(g, w.Log(), s, cur, step - 1, path, ans);
          return Stop(Failed(s', RouteError));
        }
        g.NextStaysWired(cur, s');
        var ok := LogCommit(g, w, rec, cur, step, s, ans, s', nx.value, path, held);
        t := if ok then GoOn(s', nx.value) else Stop(Failed(s', CheckpointError));
    }
  }

  lemma {:induction false} StartPositions(g: Runnable, log: seq<Record>, runID: string, s: State, cur: string,
          step: nat, path: seq<string>, ans: Option<string>)
    requires g.Wired() && 0 < step <= g.maxSteps && g.Steppable(cur) && Positioned(g, log, s, cur, step - 1, path, ans)
    ensures Positioned(g, log + [Record(|log| + 1, NodeStart(cur, step))], s, cur, step - 1, path, ans)
    ensures OpenNode(log + [Record(|log| + 1, NodeStart(cur, step))]) == Some((cur, step))
    ensures Logged(log + [Record(|log| + 1, NodeStart(cur, step))]) == Logged(log)
    ensures Stopped(g, log, runID, Failed(s, CheckpointError), true)
    ensures Stopped(g, log + [Record(|log| + 1, NodeStart(cur, step))], runID, Failed(s, CheckpointError), true)
    ensures Behind(log, log, path, cur) && Behind(log, log + [Record(|log| + 1, NodeStart(cur, step))], path, cur)
  {
    OpenSnoc(log, Record(|log| + 1, NodeStart(cur, step)));
    LoggedSnoc(log, Record(|log| + 1, NodeStart(cur, step)));
    StaysPositioned(g, log, Record(|log| + 1, NodeStart(cur, step)), s, cur, step - 1, path, ans);
  }

  lemma FromThere(log0: seq<Record>, log1: seq<Record>, s: StepRec)
    requires Logged(log1) == Logged(log0)
    ensures forall e, log, path, cur | FellShort(e, log1, log, path, cur, s) :: FellShort(e, log0, log, path, cur, s)
  {
    hide Logged, ReplayLog;
  }

  /** One turn of the loop: log the start, execute, route, commit. */
  method TakeTurn(g: Runnable, w: CkWriter, rec: Recorder, cur: string, step: nat, s: State, ans: Option<string>,
          charges: Charges, ghost path: seq<string>)
    returns (t: Turn)
    requires g.Wired() && g.Steppable(cur) && w.InSync() && !w.failed && 0 < step <= g.maxSteps
    requires Positioned(g, w.Log(), s, cur, step - 1, path, ans)
    requires Tallied(g, rec.visits, rec.path) && (Imported(w.Log()) || rec.path == path)
    modifies w, w.store, rec`path, rec`steps, rec`visits
    ensures w.InSync() && w.store.WentOn(w.runID)
    ensures rec.path == old(rec.path) + [cur]
    ensures (rec.steps == old(rec.steps) && w.failed)
            || (rec.steps != [] && Executed(g, old(rec.steps), rec.steps, cur, charges))
    ensures t.Stop? && t.res.Failed? ==>
      || (rec.steps == old(rec.steps) && t.res.error == CheckpointError
          && Behind(old(w.Log()), w.Log(), path, cur))
      || (rec.steps != [] && Executed(g, old(rec.steps), rec.steps, cur, charges)
          && FellShort(t.res.error, old(w.Log()), w.Log(), path, cur, Last(rec.steps)))
    ensures t.GoOn? || t.res.Paused? ==>
      rec.steps != [] && Executed(g, old(rec.steps), rec.steps, cur, charges)
      && Logged(w.Log()) == Logged(old(w.Log())) + [Last(rec.steps)]
    ensures t.Stop? && t.res.Paused? ==> ReplayLog(w.Log()).path == path + [cur]
    ensures t.Stop? && t.res.Paused? ==> t.res.cp.prior == rec.prior + rec.steps && t.res.cp.path == rec.path
    ensures t.GoOn? ==> !w.failed && Positioned(g, w.Log(), t.state, t.next, step, path + [cur], None)
    ensures t.GoOn? ==> t.next == END || g.Steppable(t.next)
    ensures t.GoOn? ==> Tallied(g, rec.visits, rec.path)
    ensures t.Stop? ==> Stopped(g, w.Log(), w.runID, t.res, w.failed) && !t.res.Finished?
                        && (w.store.faults == old(w.store.faults) ==> Undisturbed(g, w.Log(), t.res))
    ensures w.failed ==> w.store.faults > old(w.store.faults)
  {
    hide OpenNode, Steered, Runnable.Wired, Positioned, Undisturbed, Stopped, Logged, Top, Charge, Imported, ReplayLog,
      Tallied, TotalCost, Sum, FellShort, Behind;
    ghost var held, log := rec.path, w.Log();
    rec.path := rec.path + [cur];
    StartPositions(g, log, w.runID, s, cur, step, path, ans);
    var ok := w.Append(NodeStart(cur, step));
    if !ok { return Stop(Failed(s, CheckpointError)); }
    var out: NodeOut, left: State;
    out, left := Exec(g, w, rec, cur, step, s, path, ans, charges, held);
    OriginStays(log, w.Log());
    FromThere(log, w.Log(), Last(rec.steps));
    t := Conclude(g, w, rec, cur, step, s, ans, out, left, path, held);
  }

  /** One execution of cur is in the report, with all that it charged. */
  predicate Executed(g: Runnable, steps: seq<StepRec>, steps': seq<StepRec>, cur: string, charges: Charges)
    requires steps' != []
  {
    && Top(steps') == Top(steps) + [Last(steps')] && Last(steps').node == cur
    && Last(steps').cost == Sum(charges(cur))
    && TotalCost(steps') == TotalCost(steps) + Charge(g, cur, charges)
  }

  /** How a log began does not change while a run goes on. */
  lemma {:induction false} OriginStays(log: seq<Record>, log': seq<Record>)
    requires log != [] && log <= log' && Steered(log') == Steered(log)
    ensures Imported(log') == Imported(log)
  {
    hide Steered;
    SteeredSince(log', |log|);
    assert log'[..|log|] == log;
    if |log| == 1 < |log'| { assert !Steers(log'[..1], log'[1].body); }
  }

  /** The three ways the loop stops between two turns. */
  lemma {:induction false} StopsBetweenTurns(g: Runnable, log: seq<Record>, runID: string, s: State, cur: string,
          step: nat, path: seq<string>, ans: Option<string>)
    requires g.Wired() && Positioned(g, log, s, cur, step, path, ans)
    ensures cur == END || g.Steppable(cur)
    ensures cur != END ==> Stopped(g, log, runID, Failed(s, Cancelled), false)
    ensures cur != END && step >= g.maxSteps ==>
      Stopped(g, log, runID, Failed(s, MaxSteps), false) && Undisturbed(g, log, Failed(s, MaxSteps))
    ensures cur == END ==>
      Stopped(g, log, runID, Finished(s), false) && Undisturbed(g, log, Finished(s)) && path == ReplayLog(log).path
  {
    ReachableIsConsistent(g, log);
    if cur == END {
      EndIsSettled(g, log, s, step, path, ans);
    } else if step >= g.maxSteps {
      StuckIsSettled(g, log, s, cur, step, path, ans);
    }
  }

  /** What the loop started from. */
  datatype Mark = Mark(log: seq<Record>, path: seq<string>, logged: seq<string>, step: nat)

  /** At a head of the loop, m being where it started and more the nodes executed
      since: the log replays to the loop's own state, node, step, path and
      answer, and the report is what the log reports, and costs what the
      executions charged. */
  ghost predicate Underway(g: Runnable, m: Mark, rec: Recorder, log: seq<Record>, s: State, cur: string, step: nat,
          ans: Option<string>, more: seq<string>, charges: nat -> Charges)
    requires g.Wired()
    reads rec
  {
    && m.log != [] && m.log <= log && Steered(log) == Steered(m.log)
    && Carries(m.log, m.path, m.logged) && Carries(m.log, Top(rec.prior), Logged(m.log))
    && Positioned(g, log, s, cur, step, m.logged + more, ans)
    && rec.path == m.path + more && Tallied(g, rec.visits, rec.path)
    && Logged(log) == Logged(m.log) + Top(rec.steps) && step == m.step + |Top(rec.steps)|
    && TotalCost(rec.steps) == Spent(g, Top(rec.steps), m.step, charges)
  }

  /** One iteration. */
  method GoAround(g: Runnable, w: CkWriter, rec: Recorder, s: State, cur: string, step: nat, ans: Option<string>,
          charges: nat -> Charges, ghost m: Mark, ghost more: seq<string>)
    returns (t: Turn)
    requires g.Wired() && g.Steppable(cur) && w.InSync() && !w.failed && step < g.maxSteps
    requires Underway(g, m, rec, w.Log(), s, cur, step, ans, more, charges)
    modifies w, w.store, rec`path, rec`steps, rec`visits
    ensures w.InSync() && w.store.WentOn(w.runID)
    ensures t.GoOn? ==> !w.failed && (t.next == END || g.Steppable(t.next))
                        && Underway(g, m, rec, w.Log(), t.state, t.next, step + 1, None, more + [cur], charges)
    ensures t.Stop? ==> Stopped(g, w.Log(), w.runID, t.res, w.failed) && !t.res.Finished?
                        && (w.store.faults == old(w.store.faults) ==> Undisturbed(g, w.Log(), t.res))
    ensures w.failed ==> w.store.faults > old(w.store.faults)
    ensures TotalCost(rec.steps) == Spent(g, Top(rec.steps), m.step, charges)
    ensures t.Stop? ==> Accounted(rec, w.Log(), t.res, m.path, m.logged)
    ensures t.Stop? && t.res.Paused? ==>
      IsCheckpointOf(t.res.cp, w.runID, w.Log()) && t.res.cp.prior == rec.prior + rec.steps && t.res.cp.path == rec.path
  {
    hide OpenNode, Steered, Runnable.Wired, Positioned, Undisturbed, Stopped, Logged, Top, TotalCost, Carries,
      ReplayLog, Executed, Imported, Spent, Tallied, Accounted, FellShort, Behind;
    ghost var was, log := rec.steps, w.Log();
    InReport(m.log, log, m.path, m.logged, more, rec.prior, rec.steps);
    t := TakeTurn(g, w, rec, cur, step + 1, s, ans, charges(step + 1), m.logged + more);
    assert m.logged + (more + [cur]) == m.logged + more + [cur] && m.path + (more + [cur]) == m.path + more + [cur];
    if rec.steps != [] && Executed(g, was, rec.steps, cur, charges(step + 1)) {
      SpentOnce(g, was, rec.steps, m.step, cur, charges);
      assert Logged(m.log) + Top(was) + [Last(rec.steps)] == Logged(m.log) + Top(rec.steps);
    }
    if t.Stop? {
      StoppedAsks(g, w.Log(), w.runID, t.res, w.failed);
      TurnIsAccounted(g, m, rec, log, w.Log(), more, cur, was, t.res);
    }
  }

  /** However a turn ends the loop, its attempt is in the report. */
  lemma {:induction false} TurnIsAccounted(g: Runnable, m: Mark, rec: Recorder, log0: seq<Record>, log: seq<Record>,
          more: seq<string>, cur: string, was: seq<StepRec>, res: Outcome)
    requires m.log != [] && m.log <= log && Steered(log) == Steered(m.log)
    requires Carries(m.log, m.path, m.logged) && Carries(m.log, Top(rec.prior), Logged(m.log))
    requires Logged(log0) == Logged(m.log) + Top(was) && rec.path == m.path + more + [cur]
    requires match res
      case Finished(_) => false
      case Paused(_, _) => Grown(rec, was, cur) && Ahead(log0, log, m.logged + more, cur, Last(rec.steps))
      case Failed(_, e) =>
        || (rec.steps == was && e == CheckpointError && Behind(log0, log, m.logged + more, cur))
        || (Grown(rec, was, cur) && FellShort(e, log0, log, m.logged + more, cur, Last(rec.steps)))
    ensures Accounted(rec, log, res, m.path, m.logged)
    ensures res.Paused? ==> Carries(log, rec.path, ReplayLog(log).path)
                            && Carries(log, Top(rec.prior + rec.steps), Logged(log))
  {
    hide Steered, Carries, Top, Logged, ReplayLog;
    InReport(m.log, log, m.path, m.logged, more + [cur], rec.prior, rec.steps);
    assert m.path + (more + [cur]) == rec.path && m.logged + (more + [cur]) == m.logged + more + [cur];
    assert (m.logged + (more + [cur]))[|m.logged|..] == more + [cur];
    if Grown(rec, was, cur) {
      assert Logged(m.log) + Top(was) + [Last(rec.steps)] == Logged(m.log) + Top(rec.steps);
    }
  }

  /** The report has one execution of cur more than was. */
  ghost predicate Grown(rec: Recorder, was: seq<StepRec>, cur: string)
    reads rec
  {
    rec.steps != [] && Top(rec.steps) == Top(was) + [Last(rec.steps)] && Last(rec.steps).node == cur
  }

  lemma SetsOut(g: Runnable, m: Mark, rec: Recorder, s: State, cur: string, ans: Option<string>,
          charges: nat -> Charges)
    requires g.Wired() && Positioned(g, m.log, s, cur, m.step, m.logged, ans)
    requires Carries(m.log, m.path, m.logged) && Carries(m.log, Top(rec.prior), Logged(m.log))
    requires rec.steps == [] && rec.path == m.path && Counts(rec.visits, m.path)
    ensures Underway(g, m, rec, m.log, s, cur, m.step, ans, [], charges)
  {
    hide Runnable.Wired, Carries, Reachable, ReplayLog, Steered;
    assert m.logged + [] == m.logged && m.path + [] == m.path && Logged(m.log) + [] == Logged(m.log);
  }

  /** Between two turns the report is what the log reports. */
  lemma {:induction false} GetsThere(g: Runnable, m: Mark, rec: Recorder, log: seq<Record>, s: State, cur: string,
          step: nat, ans: Option<string>, more: seq<string>, charges: nat -> Charges)
    requires g.Wired() && Underway(g, m, rec, log, s, cur, step, ans, more, charges)
    ensures Positioned(g, log, s, cur, step, m.logged + more, ans)
    ensures Complete(rec, log, m.path, m.logged)
    ensures TotalCost(rec.steps) == Spent(g, Top(rec.steps), m.step, charges)
  {
    hide Runnable.Wired, Carries, Reachable, Logged, Steered, Top, TotalCost, Spent, Imported;
    InReport(m.log, log, m.path, m.logged, more, rec.prior, rec.steps);
    assert (m.logged + more)[|m.logged|..] == more;
  }

  /** Run's loop. At every head of it the log replays to the loop's own state,
      node, step, path and answer. */
  method Loop(g: Runnable, w: CkWriter, rec: Recorder, s0: State, cur0: string, step0: nat, path0: seq<string>,
          ans0: Option<string>, charges: nat -> Charges, ghost logged0: seq<string>)
    returns (res: Outcome)
    requires g.Wired() && w.InSync() && !w.failed && rec.steps == []
    requires Positioned(g, w.Log(), s0, cur0, step0, logged0, ans0)
    requires Carries(w.Log(), path0, logged0) && Carries(w.Log(), Top(rec.prior), Logged(w.Log()))
    modifies w, w.store, rec`path, rec`steps, rec`visits
    ensures w.InSync() && w.store.WentOn(w.runID)
    ensures Stopped(g, w.Log(), w.runID, res, w.failed)
    ensures w.failed ==> w.store.faults > old(w.store.faults)
    ensures w.store.faults == old(w.store.faults) ==> Undisturbed(g, w.Log(), res)
    ensures TotalCost(rec.steps) == Spent(g, Top(rec.steps), step0, charges)
    ensures Accounted(rec, w.Log(), res, path0, logged0)
    ensures res.Paused? ==> IsCheckpointOf(res.cp, w.runID, w.Log())
    ensures res.Paused? ==> res.cp.prior == rec.prior + rec.steps && res.cp.path == rec.path
  {
    hide OpenNode, Steered, Runnable.Wired, Positioned, Undisturbed, Stopped, Logged, Top, TotalCost, Carries,
      ReplayLog, Spent, Underway, Complete, IsCheckpointOf;
    var s, cur, step, ans := s0, cur0, step0, ans0;
    ghost var m, more: seq<string> := Mark(w.Log(), path0, logged0, step0), [];
    rec.path := path0;
    rec.SeedVisits(path0);
    SetsOut(g, m, rec, s, cur, ans, charges);
    StopsBetweenTurns(g, w.Log(), w.runID, s, cur, step, logged0, ans);
    while cur != END
      invariant w.InSync() && !w.failed && w.store.WentOn(w.runID)
      invariant cur == END || g.Steppable(cur)
      invariant Underway(g, m, rec, w.Log(), s, cur, step, ans, more, charges)
      decreases g.maxSteps - step
    {
      GetsThere(g, m, rec, w.Log(), s, cur, step, ans, more, charges);
      StopsBetweenTurns(g, w.Log(), w.runID, s, cur, step, logged0 + more, ans);
      if * { // the context was cancelled
        Fault(w.store);
        return Failed(s, Cancelled);
      }
      if step >= g.maxSteps { return Failed(s, MaxSteps); }
      var t := GoAround(g, w, rec, s, cur, step, ans, charges, m, more);
      if t.Stop? { return t.res; }
      step, more := step + 1, more + [cur];
      s, cur, ans := t.state, t.next, None;
    }
    GetsThere(g, m, rec, w.Log(), s, cur, step, ans, more, charges);
    StopsBetweenTurns(g, w.Log(), w.runID, s, cur, step, logged0 + more, ans);
    res := Finished(s);
  }

  /** What the executions in a report charged: the k-th of them was execution
      step0 + k. */
  function Spent(g: Runnable, tops: seq<StepRec>, step0: nat, charges: nat -> Charges): real {
    if tops == [] then 0.0
    else Spent(g, tops[..|tops| - 1], step0, charges) + Charge(g, Last(tops).node, charges(step0 + |tops|))
  }

  lemma {:induction false} SpentOnce(g: Runnable, steps: seq<StepRec>, steps': seq<StepRec>, step0: nat, cur: string,
          charges: nat -> Charges)
    requires steps' != [] && Executed(g, steps, steps', cur, charges(step0 + |Top(steps)| + 1))
    requires TotalCost(steps) == Spent(g, Top(steps), step0, charges)
    ensures Top(steps') == Top(steps) + [Last(steps')] && Last(steps').node == cur
    ensures TotalCost(steps') == Spent(g, Top(steps'), step0, charges)
  {
    hide Top, TotalCost, Charge;
    assert Top(steps')[..|Top(steps)|] == Top(steps);
  }

  /** The loop's own lists, at any head of it, are what the log carries. */
  lemma {:induction false} InReport(log0: seq<Record>, log: seq<Record>, path0: seq<string>, logged0: seq<string>,
          more: seq<string>, prior: seq<StepRec>, mine: seq<StepRec>)
    requires log0 != [] && log0 <= log && Steered(log) == Steered(log0)
    requires Carries(log0, path0, logged0) && Carries(log0, Top(prior), Logged(log0))
    ensures Imported(log) == Imported(log0)
    ensures Carries(log, path0 + more, logged0 + more)
    ensures Carries(log, Top(prior + mine), Logged(log0) + Top(mine))
    ensures Imported(log) || path0 + more == logged0 + more
  {
    hide Steered, Top, Logged;
    OriginStays(log0, log);
    TopJoins(prior, mine);
    CarriesMore(log0, log, path0, logged0, more);
    CarriesMore(log0, log, Top(prior), Logged(log0), Top(mine));
  }

  lemma {:induction false} PositionedAt(g: Runnable, log: seq<Record>, s: State, cur: string, step: nat,
          path: seq<string>, ans: Option<string>)
    requires g.Wired() && Positioned(g, log, s, cur, step, path, ans)
    ensures ReplayLog(log).path == path && log != [] && Reachable(g, log) && Behind(log, log, path, cur)
  {}

  lemma {:induction false} StoppedAsks(g: Runnable, log: seq<Record>, runID: string, res: Outcome, broken: bool)
    requires g.Wired() && Stopped(g, log, runID, res, broken)
    ensures res.Paused? ==> Asks(res.cp, runID, ReplayLog(log))
  {}

  method Fault(store: Store)
    modifies store`faults
    ensures store.faults == old(store.faults) + 1
  {
    store.faults := store.faults + 1;
  }

  /** The loop's interrupt branch: log the question, then hand it out. */
  method Pause(g: Runnable, w: CkWriter, rec: Recorder, cur: string, step: nat, s0: State, ans: Option<string>,
          s: State, q: string, ghost path: seq<string>)
    returns (res: Outcome)
    requires g.Wired() && g.Steppable(cur) && w.InSync() && 0 < step <= g.maxSteps && rec.steps != []
    requires Positioned(g, w.Log(), s0, cur, step - 1, path, ans)
    requires g.Eval(cur, step, s0, ans) == Ask(s, q)
    requires OpenNode(w.Log()) == Some((cur, step))
    requires Last(rec.steps) == StepRec(cur, "", Last(rec.steps).cost, true, q)
    modifies w, w.store
    ensures w.InSync() && w.store.WentOn(w.runID)
    ensures Reachable(g, w.Log()) && w.Log() != []
    ensures w.failed ==> res == Failed(s, CheckpointError)
    ensures w.failed && !old(w.failed) ==> w.store.faults > old(w.store.faults)
    ensures Stopped(g, w.Log(), w.runID, res, w.failed)
    ensures !w.failed ==> res.Paused? && Undisturbed(g, w.Log(), res)
    ensures w.failed ==> FellShort(CheckpointError, old(w.Log()), w.Log(), path, cur, Last(rec.steps))
    ensures !w.failed ==> (w.Log() == old(w.Log())
      + [Record(|old(w.Log())| + 1, Interrupt(cur, step, q, s, Last(rec.steps).cost))])
    ensures res.Paused? ==> Logged(w.Log()) == Logged(old(w.Log())) + [Last(rec.steps)]
    ensures res.Paused? ==> ReplayLog(w.Log()).path == path + [cur]
    ensures res.Paused? ==> res.cp.prior == rec.prior + rec.steps && res.cp.path == rec.path
  {
    hide OpenNode, Steered, Runnable.Wired, Settled, Top;
    ghost var log := w.Log();
    var b := Interrupt(cur, step, q, s, Last(rec.steps).cost);
    OpenIsLater(g, log);
    if !w.failed {
      InterruptPauses(g, log, s0, cur, step - 1, path, ans, Record(|log| + 1, b));
    }
    var ok := w.Append(b);
    if !ok { return Failed(s, CheckpointError); }
    WaitingIsSettled(g, w.Log());
    ReachableIsConsistent(g, w.Log());
    res := Paused(Checkpoint(w.runID, s, cur, step - 1, rec.path, rec.prior + rec.steps), q);
  }

  lemma {:induction false} FirstIsStart(g: Runnable, log: seq<Record>)
    requires g.Wired() && Reachable(g, log) && log != []
    ensures log[0].body.RunStart?
  {
    hide Runnable.Wired, LegalAfter;
    ReachablePrefix(g, log, 0);
    assert log[..0] == [];
  }

  lemma {:induction false} OneIsClosed(g: Runnable, log: seq<Record>)
    requires g.Wired() && Reachable(g, log) && |log| == 1
    ensures OpenNode(log).None?
  {
    FirstIsStart(g, log);
    assert log[..0] == [];
  }

  lemma {:induction false} OpenIsLater(g: Runnable, log: seq<Record>)
    requires g.Wired() && Reachable(g, log) && OpenNode(log).Some?
    ensures |log| >= 2
  {
    if |log| == 1 { OneIsClosed(g, log); }
  }

  /** What a call tells its caller about the log it leaves: finished and
      recorded as such, waiting on the question handed out, or retryable. */
  ghost predicate Returned(g: Runnable, log: seq<Record>, runID: string, res: Outcome, faulty: bool)
    requires g.Wired()
  {
    && log != [] && Reachable(g, log)
    && (!faulty ==> Undisturbed(g, log, res))
    && var p := ReplayLog(log);
       match res
       case Finished(s) => p.Finished() && p.state == s
       case Paused(cp, q) => p.Waiting() && p.pending.value.question == q && IsCheckpointOf(cp, runID, log)
       case Failed(s, e) =>
         (!faulty ==> p.ended && p.endErr == Message(e) && !p.Waiting()) && FailsAs(g, p, s, e)
  }

  /** HOW IT ENDS, if nothing interferes. Where the log of a call stands tells
      which result it has, and no other: finished at End, paused on a question
      without an answer, out of steps, a node that fails, or one whose route
      panics or leaves its declared targets. */
  lemma {:induction false} HowItEnds(g: Runnable, log: seq<Record>, runID: string, res: Outcome)
    requires g.Wired() && Returned(g, log, runID, res, false)
    ensures var p := ReplayLog(log);
      var due := !p.Waiting() && p.next != END;
      && (due && p.step < g.maxSteps ==>
            g.Steppable(p.next) && !g.Eval(p.next, p.step + 1, p.state, p.answer).Ask?)
      && (res.Finished? <==> !p.Waiting() && p.next == END)
      && (res.Paused? <==> p.Waiting())
      && (res.Failed? && res.error == MaxSteps <==> due && p.step >= g.maxSteps)
      && (res.Failed? && res.error == NodeError <==>
            due && p.step < g.maxSteps && g.Eval(p.next, p.step + 1, p.state, p.answer).Fail?)
      && (res.Failed? && res.error == RouteError <==>
            due && p.step < g.maxSteps &&
            match g.Eval(p.next, p.step + 1, p.state, p.answer)
            case Done(s) =>
              && p.next !in g.statics
              && (p.next !in g.cond ||
                  match g.cond[p.next].route(s)
                  case None => true
                  case Some(t) => t !in g.cond[p.next].targets)
            case _ => false)
  {
    hide Runnable.Eval, Settled, Reachable, ReplayLog, IsCheckpointOf;
    ReachableIsConsistent(g, log);
    var p := ReplayLog(log);
    if res.Failed? && res.error == NodeError { assert g.Steppable(p.next); }
    g.EndIsNoNode();
  }

  function EndRecord(res: Outcome): Body
    requires !res.Paused?
  {
    RunEnd(res.state, if res.Failed? then Message(res.error) else "")
  }

  /** finish: run_end closes the log, unless the run paused. */
  method Finish(g: Runnable, w: CkWriter, rec: Recorder, res0: Outcome, ghost faulty: bool, ghost held0: seq<string>,
          ghost logged0: seq<string>)
    returns (res: Outcome)
    requires g.Wired() && w.InSync()
    requires Stopped(g, w.Log(), w.runID, res0, w.failed) && Accounted(rec, w.Log(), res0, held0, logged0)
    requires res0.Paused? ==> IsCheckpointOf(res0.cp, w.runID, w.Log())
    requires (w.failed ==> faulty) && (!faulty ==> Undisturbed(g, w.Log(), res0))
    modifies w, w.store
    ensures w.store.WentOn(w.runID)
    ensures res == res0 || (res0.Finished? && res == Failed(res0.state, CheckpointError))
    ensures Reachable(g, w.Log()) && w.Log() != []
    ensures Returned(g, w.Log(), w.runID, res, faulty || w.store.faults > old(w.store.faults))
    ensures Accounted(rec, w.Log(), res, held0, logged0)
    ensures res0.Paused? || old(w.failed) ==> w.Log() == old(w.Log())
    ensures !res0.Paused? && w.store.faults == old(w.store.faults) && !old(w.failed) ==>
      w.Log() == old(w.Log()) + [Record(|old(w.Log())| + 1, EndRecord(res0))]
  {
    hide Steered, Runnable.Wired, Reachable, ReplayLog, Accounted, Stopped, Returned, Undisturbed, FailsAs,
      IsCheckpointOf;
    res := res0;
    ghost var log, broken := w.Log(), w.failed;
    if res0.Paused? {
      PauseReturns(g, log, w.runID, res, broken, faulty);
      return;
    }
    EndingKeeps(g, log, w.runID, res0, broken);
    var ok := w.Append(EndRecord(res0));
    if !ok && res0.Finished? { res := Failed(res0.state, CheckpointError); }
    EndingReturns(g, log, w.Log(), w.runID, res0, res, broken, faulty || w.store.faults > old(w.store.faults));
    StillAccounted(rec, log, w.Log(), res0, res, held0, logged0);
  }

  lemma {:induction false} PauseReturns(g: Runnable, log: seq<Record>, runID: string, res: Outcome, broken: bool,
          faulty: bool)
    requires g.Wired() && Stopped(g, log, runID, res, broken) && res.Paused? && IsCheckpointOf(res.cp, runID, log)
    requires !faulty ==> Undisturbed(g, log, res)
    ensures Returned(g, log, runID, res, faulty) && log != [] && Reachable(g, log)
  {
    hide Runnable.Wired, Reachable, ReplayLog, Undisturbed, IsCheckpointOf;
  }

  /** log, which stops with res, with its run_end. */
  function Ended(log: seq<Record>, res: Outcome): seq<Record>
    requires !res.Paused?
  {
    log + [Record(|log| + 1, EndRecord(res))]
  }

  lemma {:induction false} EndingReturns(g: Runnable, log: seq<Record>, log': seq<Record>, runID: string, res: Outcome,
          res': Outcome, broken: bool, faulty: bool)
    requires g.Wired() && Stopped(g, log, runID, res, broken) && !res.Paused?
    requires log' == log || (!broken && log' == Ended(log, res))
    requires res' == res || (res.Finished? && faulty && res' == Failed(res.state, CheckpointError))
    requires (broken ==> faulty) && (!faulty || res'.Finished? ==> log' == Ended(log, res))
    requires !faulty ==> Undisturbed(g, log, res)
    ensures Returned(g, log', runID, res', faulty) && log' != [] && Reachable(g, log')
    ensures var p, p' := ReplayLog(log), ReplayLog(log');
      Imported(log') == Imported(log) && p'.path == p.path && p'.steps == p.steps && p'.next == p.next
  {
    EndingKeeps(g, log, runID, res, broken);
    if res.Failed? {
      FailsAlike(g, log, log', res);
    } else if res'.Failed? {
      assert FailsAs(g, ReplayLog(log'), res.state, CheckpointError);
    }
    hide Runnable.Wired, Reachable, ReplayLog, Settled, Imported, Ended, FailsAs, Undisturbed, EndRecord;
  }

  lemma {:induction false} FailsAlike(g: Runnable, log: seq<Record>, log': seq<Record>, res: Outcome)
    requires g.Wired() && res.Failed? && (Settled(g, log) ==> Settled(g, log'))
    requires var p, p' := ReplayLog(log), ReplayLog(log');
      p'.state == p.state && p'.next == p.next && p'.step == p.step && p'.answer == p.answer
    ensures FailsAs(g, ReplayLog(log), res.state, res.error) ==> FailsAs(g, ReplayLog(log'), res.state, res.error)
    ensures Undisturbed(g, log, res) ==> Undisturbed(g, log', res)
  {
    hide Runnable.Wired, Runnable.Eval, Runnable.Next, ReplayLog, Settled;
  }

  lemma {:induction false} StillAccounted(rec: Recorder, log: seq<Record>, log': seq<Record>, res: Outcome,
          res': Outcome, held0: seq<string>, logged0: seq<string>)
    requires Accounted(rec, log, res, held0, logged0) && Imported(log') == Imported(log)
    requires var p, p' := ReplayLog(log), ReplayLog(log'); p'.path == p.path && p'.steps == p.steps && p'.next == p.next
    requires res' == res || (res.Finished? && res' == Failed(res.state, CheckpointError))
    ensures Accounted(rec, log', res', held0, logged0)
  {
    hide ReplayLog, Imported, Top, GoesOn;
  }

  lemma {:induction false} EndingKeeps(g: Runnable, log: seq<Record>, runID: string, res: Outcome, broken: bool)
    requires g.Wired() && Stopped(g, log, runID, res, broken) && !res.Paused?
    ensures log != [] && Reachable(g, log) && (broken ==> res.Failed?)
    ensures !broken ==>
      var p, p' := ReplayLog(log), ReplayLog(Ended(log, res));
      && Reachable(g, Ended(log, res)) && Imported(Ended(log, res)) == Imported(log)
      && p'.Waiting() == p.Waiting() && p'.state == p.state && p'.next == p.next && p'.step == p.step
      && p'.answer == p.answer && p'.path == p.path && p'.steps == p.steps
      && p'.ended && p'.endErr == EndRecord(res).err && (p'.Finished() <==> res.Finished?)
      && (Settled(g, log) ==> Settled(g, Ended(log, res)))
  {
    if !broken {
      var r := Record(|log| + 1, EndRecord(res));
      ReachableSnoc(g, log, r);
      AbsSnoc(log, r);
    }
  }

  /** The end of the reference run that starts where the run of log does. */
  ghost function Reference(g: Runnable, log: seq<Record>, answers: seq<string>): Config
    requires g.Wired() && log != []
  {
    Iterate(g, answers, Abs(log[..Origin(log)]), g.maxSteps + 2 * |answers| + 1)
  }

  ghost predicate MatchesReference(g: Runnable, log: seq<Record>, res: Outcome)
    requires g.Wired()
  {
    res.Finished? && log != [] && NoForkSince(log, Origin(log)) ==>
      && Abs(log) == Reference(g, log, Abs(log).used)
      && Abs(log).state == res.state
      && Abs(log).path == ReplayLog(log).path
  }

  lemma ReturnedMatches(g: Runnable, log: seq<Record>, runID: string, res: Outcome, faulty: bool)
    requires g.Wired() && Returned(g, log, runID, res, faulty)
    ensures MatchesReference(g, log, res)
  {
    hide Runnable.Wired, Reachable, ReplayLog, Abs, Settled;
    if res.Finished? && NoForkSince(log, Origin(log)) {
      FinishedIsReferenceResult(g, log, Abs(log).used);
      ReplayRestores(g, log);
    }
  }

  lemma {:induction false} ReturnedReaches(g: Runnable, log: seq<Record>, runID: string, res: Outcome, faulty: bool)
    requires g.Wired() && Returned(g, log, runID, res, faulty)
    ensures log != [] && Reachable(g, log) && MatchesReference(g, log, res)
  {
    ReturnedMatches(g, log, runID, res, faulty);
  }

  lemma {:induction false} BrokenReturns(g: Runnable, log: seq<Record>, runID: string, s: State)
    requires g.Wired() && log != [] && Reachable(g, log)
    ensures Returned(g, log, runID, Failed(s, CheckpointError), true)
    ensures MatchesReference(g, log, Failed(s, CheckpointError))
  {}

  /** The loop and its end, as every call makes them. */
  method Segment(g: Runnable, w: CkWriter, rec: Recorder, s: State, cur: string, step: nat, path: seq<string>,
          ans: Option<string>, charges: nat -> Charges, ghost logged: seq<string>, ghost faults: nat)
    returns (res: Outcome)
    requires g.Wired() && w.InSync() && !w.failed && rec.steps == [] && faults <= w.store.faults
    requires Positioned(g, w.Log(), s, cur, step, logged, ans)
    requires Carries(w.Log(), path, logged) && Carries(w.Log(), Top(rec.prior), Logged(w.Log()))
    modifies w, w.store, rec`path, rec`steps, rec`visits
    ensures w.store.WentOn(w.runID) && w.Log() != [] && Reachable(g, w.Log())
    ensures Returned(g, w.Log(), w.runID, res, w.store.faults > faults)
    ensures MatchesReference(g, w.Log(), res)
    ensures Accounted(rec, w.Log(), res, path, logged)
    ensures TotalCost(rec.steps) == Spent(g, Top(rec.steps), step, charges)
  {
    hide OpenNode, Steered, Runnable.Wired, Positioned, Undisturbed, Stopped, Returned, ReplayLog, Reachable, Logged,
      Carries, Top, TotalCost, Spent, Accounted, IsCheckpointOf, MatchesReference;
    res := Loop(g, w, rec, s, cur, step, path, ans, charges, logged);
    res := Finish(g, w, rec, res, w.store.faults > faults, path, logged);
    ReturnedReaches(g, w.Log(), w.runID, res, w.store.faults > faults);
  }

  lemma {:induction false} EmptyIsReachable(g: Runnable)
    requires g.Wired()
    ensures Reachable(g, [])
  {}

  function StartRecord(g: Runnable, s: State, first: string): Record {
    Record(1, RunStart(g.topoHash, s, first, 0))
  }

  lemma {:induction false} FirstRecordPositions(g: Runnable, s: State, first: string)
    requires g.Wired() && g.Next(START, s) == Some(first)
    ensures var one := [StartRecord(g, s, first)];
      && Positioned(g, one, s, first, 0, [], None) && Reachable(g, one)
      && ReplayLog(one).path == [] && Logged(one) == []
      && Carries<string>(one, [], []) && Carries<StepRec>(one, [], [])
  {
    var r := StartRecord(g, s, first);
    assert Reachable(g, []) && Legal(g, [], r) && [] + [r] == [r];
    ReachableSnoc(g, [], r);
  }

  /** Where nothing was executed, the report is what it began with. */
  lemma {:induction false} NothingExecuted(rec: Recorder, log: seq<Record>, held: seq<string>, s: State)
    requires rec.steps == [] && rec.path == held
    requires Carries(log, held, ReplayLog(log).path) && Carries(log, Top(rec.prior), Logged(log))
    ensures Complete(rec, log, held, ReplayLog(log).path)
    ensures Accounted(rec, log, Failed(s, CheckpointError), held, ReplayLog(log).path)
  {
    hide Carries, ReplayLog, Top, Logged;
    assert rec.prior + rec.steps == rec.prior && held + [] == held;
  }

  /** Run, once the first node is known: logStart, and the loop. */
  method Begin(g: Runnable, w: CkWriter, rec: Recorder, init: State, first: string, charges: nat -> Charges)
    returns (res: Outcome)
    requires g.Wired() && g.Next(START, init) == Some(first) && w.Log() == [] && w.InSync() && !w.failed
    requires Blank(rec)
    modifies w, w.store, rec`path, rec`steps, rec`visits
    ensures w.store.WentOn(w.runID) && Reachable(g, w.Log())
    ensures w.Log() == [] || [StartRecord(g, init, first)] <= w.Log()
    ensures w.Log() == [] ==>
      res == Failed(init, CheckpointError) && Blank(rec) && w.store.faults > old(w.store.faults)
    ensures w.Log() != [] ==>
      && Returned(g, w.Log(), w.runID, res, w.store.faults > old(w.store.faults))
      && Accounted(rec, w.Log(), res, [], [])
    ensures MatchesReference(g, w.Log(), res)
    ensures TotalCost(rec.steps) == Spent(g, Top(rec.steps), 0, charges)
  {
    hide OpenNode, Steered, Runnable.Wired, Runnable.Next, Positioned, Stopped, Returned, ReplayLog, Reachable,
      Logged, Carries, Top, TotalCost, Spent, Accounted, Complete, MatchesReference;
    NothingSpent(g, 0, charges);
    EmptyIsReachable(g);
    FirstRecordPositions(g, init, first);
    ghost var one := [StartRecord(g, init, first)];
    BrokenReturns(g, one, w.runID, init);
    NothingExecuted(rec, one, [], init);
    assert w.Log() + one == one && one == [Record(|w.Log()| + 1, RunStart(g.topoHash, init, first, 0))];
    hide StartRecord;
    var ok := w.Append(RunStart(g.topoHash, init, first, 0));
    assert w.Log() == [] || w.Log() == one;
    if !ok {
      return Refused(g, w.Log(), init, CheckpointError);
    }
    res := Segment(g, w, rec, init, first, 0, [], None, charges, [], old(w.store.faults));
  }

  lemma StartIsRouted(g: Runnable, init: State)
    requires g.Wired()
    ensures START in g.statics <==> START !in g.cond
    ensures forall t | g.Next(START, init) == Some(t) ::
      if START in g.statics then t == g.statics[START]
      else START in g.cond && g.cond[START].route(init) == Some(t) && t in g.cond[START].targets
    ensures
      (START in g.cond &&
       match g.cond[START].route(init)
       case None => true
       case Some(t) => t !in g.cond[START].targets)
      ==> g.Next(START, init).None?
  {}

  /** Run, under a fresh run id. */
  method Run(g: Runnable, store: Store, runID: string, init: State, charges: nat -> Charges)
    returns (res: Outcome, rec: Recorder)
    requires g.Wired() && store.Log(runID) == []
    modifies store
    ensures store.WentOn(runID) && Reachable(g, store.Log(runID))
    ensures g.Next(START, init).None? ==> store.Log(runID) == [] && res == Failed(init, RouteError)
    ensures store.Log(runID) != [] ==>
      var r := store.Log(runID)[0];
      && r.body.RunStart? && r == Record(1, RunStart(g.topoHash, init, r.body.next, 0))
      && if START in g.statics then r.body.next == g.statics[START]
         else
           && START in g.cond && g.cond[START].route(init) == Some(r.body.next)
           && r.body.next in g.cond[START].targets
    ensures
      (START in g.cond &&
       match g.cond[START].route(init)
       case None => true
       case Some(t) => t !in g.cond[START].targets)
      ==> store.Log(runID) == [] && res == Failed(init, RouteError)
    ensures store.Log(runID) == [] ==> res.Failed? && Blank(rec)
    ensures store.Log(runID) == [] && g.Next(START, init).Some? ==>
      res == Failed(init, CheckpointError) && store.faults > old(store.faults)
    ensures store.Log(runID) != [] ==>
      && g.Next(START, init).Some? && [StartRecord(g, init, g.Next(START, init).value)] <= store.Log(runID)
      && Returned(g, store.Log(runID), runID, res, store.faults > old(store.faults))
      && Accounted(rec, store.Log(runID), res, [], [])
    ensures MatchesReference(g, store.Log(runID), res)
    ensures rec.prior == [] && TotalCost(rec.steps) == Spent(g, Top(rec.steps), 0, charges)
  {
    NothingSpent(g, 0, charges);
    EmptyIsReachable(g);
    hide Steered, Runnable.Wired, Runnable.Next, Returned, Reachable, TotalCost, Spent, Accounted, MatchesReference;
    StartIsRouted(g, init);
    rec := new Recorder([]);
    var w := new CkWriter(store, runID, 0);
    var first := g.Next(START, init);
    if first.None? { return Refused(g, [], init, RouteError), rec; }
    res := Begin(g, w, rec, init, first.value, charges);
  }

  // ----- Resume -----

  function ResumeRecord(log: seq<Record>, cp: Checkpoint, answer: string): Record
    requires cp.step >= 0
  {
    Record(|log| + 1, RunLog.Resume(cp.node, cp.step + 1, answer))
  }

  lemma {:induction false} ResumePositions(g: Runnable, log: seq<Record>, cp: Checkpoint, answer: string)
    requires g.Wired() && Reachable(g, log) && IsCheckpointOf(cp, cp.runID, log)
    ensures log != [] && g.Steppable(cp.node) && cp.step >= 0
    ensures var log' := log + [ResumeRecord(log, cp, answer)];
      && Positioned(g, log', cp.state, cp.node, cp.step, ReplayLog(log).path, Some(answer))
      && Carries(log', cp.path, ReplayLog(log).path) && Carries(log', Top(cp.prior), Logged(log'))
      && Steered(log') == Steered(log) + [RunLog.Resume(cp.node, cp.step + 1, answer)]
      && Given(log') == Given(log) + [answer]
  {
    hide Steered, Given, Top, Carries, Logged, Runnable.Wired, Reachable, ReplayLog, Positioned, Imported;
    AnswerPositions(g, log, cp, answer);
    var r := ResumeRecord(log, cp, answer);
    AnswerSteers(log, r);
    SameOriginAfter(log, r);
    CarriesStill(log, log + [r], cp.path, ReplayLog(log).path);
    CarriesStill(log, log + [r], Top(cp.prior), Logged(log));
  }

  lemma {:induction false} AnswerSteers(log: seq<Record>, r: Record)
    requires r.body.Resume?
    ensures Steered(log + [r]) == Steered(log) + [r.body] && Given(log + [r]) == Given(log) + [r.body.answer]
  {
    hide Steered;
    SteeredSnoc(log, r);
    AnswersSnoc(Steered(log), r.body);
  }

  lemma CarriesStill<T>(log: seq<Record>, log': seq<Record>, held: seq<T>, logged: seq<T>)
    requires Carries(log, held, logged) && Imported(log') == Imported(log)
    ensures Carries(log', held, logged)
  {
    hide Imported;
  }

  lemma {:induction false} AnswerPositions(g: Runnable, log: seq<Record>, cp: Checkpoint, answer: string)
    requires g.Wired() && Reachable(g, log) && Asks(cp, cp.runID, ReplayLog(log))
    ensures log != [] && g.Steppable(cp.node) && cp.step >= 0
    ensures var log' := log + [ResumeRecord(log, cp, answer)];
      && Positioned(g, log', cp.state, cp.node, cp.step, ReplayLog(log).path, Some(answer))
      && Logged(log') == Logged(log)
  {
    hide Runnable.Wired, Steered;
    ReachableIsConsistent(g, log);
    LoggedSnoc(log, ResumeRecord(log, cp, answer));
    ReachableSnoc(g, log, ResumeRecord(log, cp, answer));
  }

  lemma SameOriginAfter(log: seq<Record>, r: Record)
    requires log != [] && !r.body.Interrupt?
    ensures Imported(log + [r]) == Imported(log)
  {}

  /** What logResume writes first when the store has never seen the run: the
      checkpoint, as a run that is waiting at it. */
  function ImportLog(g: Runnable, cp: Checkpoint): seq<Record>
    requires cp.step >= 0
  {
    [Record(1, RunStart(g.topoHash, cp.state, cp.node, cp.step)),
     Record(2, Interrupt(cp.node, cp.step + 1, IMPORTED, cp.state, 0.0))]
  }

  lemma {:induction false} ImportReplays(g: Runnable, cp: Checkpoint)
    requires g.Wired() && g.Steppable(cp.node) && cp.step >= 0
    ensures var log := ImportLog(g, cp);
      && Reachable(g, log) && Reachable(g, log[..1]) && Imported(log)
      && IsCheckpointOf(cp, cp.runID, log) && ReplayLog(log).Waiting()
      && ReplayLog(log).path == [cp.node] && Logged(log) == [StepRec(cp.node, "", 0.0, true, IMPORTED)]
  {
    hide Steered, Runnable.Wired;
    var log := ImportLog(g, cp);
    assert ReplayLog([]) == EMPTY && Reachable(g, []);
    assert [] + log[..1] == log[..1] == [log[0]] && log == log[..1] + [log[1]];
    ReachableSnoc(g, [], log[0]);
    ReachableSnoc(g, log[..1], log[1]);
    LoggedSnoc(log[..1], log[1]);
  }

  lemma {:induction false} ImportIsSteered(g: Runnable, cp: Checkpoint)
    requires g.Wired() && g.Steppable(cp.node) && cp.step >= 0
    ensures var log := ImportLog(g, cp);
      Steered(log) == [log[1].body] && Steered(log[..1]) == [] && Given(log) == Given(log[..1]) == []
  {
    var log := ImportLog(g, cp);
    assert AnswersIn([]) == [] && Steered([]) == [];
    assert [] + log[..1] == log[..1] == [log[0]] && log == log[..1] + [log[1]];
    SteeredSnoc([], log[0]);
    SteeredSnoc(log[..1], log[1]);
    AnswersSnoc([], log[1].body);
    assert [] + [log[1].body] == [log[1].body];
  }

  lemma {:induction false} ImportIsAt(g: Runnable, cp: Checkpoint)
    requires cp.step >= 0
    ensures Abs(ImportLog(g, cp)) == ImportedAt(cp)
  {
    var log := ImportLog(g, cp);
    assert ReplayLog([]) == EMPTY;
    assert [] + log[..1] == log[..1] == [log[0]] && log == log[..1] + [log[1]];
    ReplaySnoc([], log[0]);
    AbsSnoc([], log[0]);
    AbsSnoc(log[..1], log[1]);
  }

  /** The configuration of a run imported at cp: paused, nothing used yet. */
  function ImportedAt(cp: Checkpoint): Config
    requires cp.step >= 0
  {
    Config(cp.state, cp.node, cp.step, [cp.node], [Ideal.Exec(cp.node, cp.step + 1, 1)], [], Some(IMPORTED), [])
  }

  /** The log that a Resume answers: the run's, or the import's. */
  function Asked(g: Runnable, cp: Checkpoint, log: seq<Record>): seq<Record>
    requires cp.step >= 0
  {
    if log == [] then ImportLog(g, cp) else log
  }

  lemma ImportParts(g: Runnable, cp: Checkpoint)
    requires cp.step >= 0
    ensures var all := ImportLog(g, cp);
      var first, second := Record(1, RunStart(g.topoHash, cp.state, cp.node, cp.step)),
                           Record(2, Interrupt(cp.node, cp.step + 1, IMPORTED, cp.state, 0.0));
      && [] + [first] == [first] && [first] + [second] == all && [] <= all && [first] <= all
  {}

  method LogImport(g: Runnable, w: CkWriter, cp: Checkpoint) returns (ok: bool)
    requires g.Wired() && g.Steppable(cp.node) && cp.step >= 0 && w.Log() == [] && w.InSync() && !w.failed
    modifies w, w.store
    ensures w.InSync() && w.store.Grew(w.runID) && ok == !w.failed
    ensures ok ==> w.Log() == ImportLog(g, cp) && w.store.faults == old(w.store.faults)
    ensures ok ==>
      w.Log() == [Record(1, RunStart(g.topoHash, cp.state, cp.node, cp.step)),
                  Record(2, Interrupt(cp.node, cp.step + 1, "(checkpoint imported)", cp.state, 0.0))]
    ensures !ok ==> w.Log() <= ImportLog(g, cp) && w.store.faults > old(w.store.faults)
  {
    ImportParts(g, cp);
    hide ImportLog, Steered;
    ghost var none := w.Log();
    assert |none| + 1 == 1;
    ok := w.Append(RunStart(g.topoHash, cp.state, cp.node, cp.step));
    assert |none + [Record(1, RunStart(g.topoHash, cp.state, cp.node, cp.step))]| + 1 == 2;
    if ok { ok := w.Append(Interrupt(cp.node, cp.step + 1, IMPORTED, cp.state, 0.0)); }
  }

  /** log goes on from asked with the answer, and has no other answer or fork
      that asked had not. */
  ghost predicate Answered(asked: seq<Record>, cp: Checkpoint, answer: string, log: seq<Record>)
    requires cp.step >= 0
  {
    && asked + [ResumeRecord(asked, cp, answer)] <= log
    && Steered(log) == Steered(asked) + [RunLog.Resume(cp.node, cp.step + 1, answer)]
    && Given(log) == Given(asked) + [answer]
  }

  method AppendAnswer(g: Runnable, w: CkWriter, cp: Checkpoint, answer: string) returns (ok: bool)
    requires g.Wired() && Reachable(g, w.Log()) && cp.runID == w.runID && IsCheckpointOf(cp, w.runID, w.Log())
    requires w.InSync() && !w.failed && cp.step >= 0
    modifies w, w.store
    ensures w.InSync() && w.store.Grew(w.runID) && ok == !w.failed
    ensures ok ==> w.store.faults == old(w.store.faults)
    ensures ok ==>
      var logged := ReplayLog(old(w.Log())).path;
      && Positioned(g, w.Log(), cp.state, cp.node, cp.step, logged, Some(answer))
      && Carries(w.Log(), cp.path, logged) && Carries(w.Log(), Top(cp.prior), Logged(w.Log()))
      && w.Log() == old(w.Log()) + [ResumeRecord(old(w.Log()), cp, answer)]
      && Steered(w.Log()) == Steered(old(w.Log())) + [RunLog.Resume(cp.node, cp.step + 1, answer)]
      && Given(w.Log()) == Given(old(w.Log())) + [answer]
    ensures !ok ==>
      && w.store.faults > old(w.store.faults) && w.Log() != [] && Reachable(g, w.Log())
      && Returned(g, w.Log(), w.runID, Failed(cp.state, CheckpointError), true)
      && MatchesReference(g, w.Log(), Failed(cp.state, CheckpointError))
      && (Answered(old(w.Log()), cp, answer, w.Log()) || w.Log() == old(w.Log()))
      && w.Log() <= old(w.Log()) + [ResumeRecord(old(w.Log()), cp, answer)]
  {
    hide OpenNode, Steered, Runnable.Wired, Positioned, Returned, ReplayLog, Reachable, Carries, Top, Logged,
      MatchesReference, Given, IsCheckpointOf, Answered, Imported;
    ghost var log := w.Log();
    ResumePositions(g, log, cp, answer);
    StillAnswered(log, cp, answer, log + [ResumeRecord(log, cp, answer)]);
    AnswerFails(g, log, cp, answer);
    ok := w.Append(RunLog.Resume(cp.node, cp.step + 1, answer));
  }

  /** The call failed before its loop began. */
  ghost predicate NotResumed(rec: Recorder, cp: Checkpoint, res: Outcome)
    reads rec
  {
    res == Failed(cp.state, CheckpointError) && rec.steps == [] && rec.path == []
  }

  /** Resume, once the log waits on cp's question: the answer, and the loop. */
  method Reexecute(g: Runnable, w: CkWriter, rec: Recorder, cp: Checkpoint, answer: string, charges: nat -> Charges,
          ghost faults: nat)
    returns (res: Outcome)
    requires g.Wired() && Reachable(g, w.Log()) && cp.runID == w.runID && IsCheckpointOf(cp, w.runID, w.Log())
    requires w.InSync() && !w.failed && cp.step >= 0 && faults <= w.store.faults
    requires rec.prior == cp.prior && rec.steps == [] && rec.path == []
    modifies w, w.store, rec`path, rec`steps, rec`visits
    ensures w.store.Grew(w.runID) && w.Log() != [] && Reachable(g, w.Log())
    ensures Answered(old(w.Log()), cp, answer, w.Log())
            || (res.Failed? && w.Log() == old(w.Log()) && w.store.faults > old(w.store.faults))
    ensures Returned(g, w.Log(), w.runID, res, w.store.faults > faults)
    ensures MatchesReference(g, w.Log(), res)
    ensures || Accounted(rec, w.Log(), res, cp.path, ReplayLog(old(w.Log())).path)
            || (NotResumed(rec, cp, res) && w.store.faults > old(w.store.faults)
                && w.Log() <= old(w.Log()) + [ResumeRecord(old(w.Log()), cp, answer)])
    ensures TotalCost(rec.steps) == Spent(g, Top(rec.steps), cp.step, charges)
  {
    hide OpenNode, Steered, Runnable.Wired, Positioned, Settled, Stopped, Returned, ReplayLog, Reachable, Carries,
      Top, Logged, TotalCost, Spent, Accounted, MatchesReference, Given, IsCheckpointOf, Answered, Imported;
    NothingSpent(g, cp.step, charges);
    ghost var log := w.Log();
    var ok := AppendAnswer(g, w, cp, answer);
    if !ok { return Failed(cp.state, CheckpointError); }
    res := Segment(g, w, rec, cp.state, cp.node, cp.step, cp.path, Some(answer), charges, ReplayLog(log).path, faults);
    StillAnswered(log, cp, answer, w.Log());
  }

  /** What it leaves if the answer's append fails, landed or not. */
  lemma {:induction false} AnswerFails(g: Runnable, log: seq<Record>, cp: Checkpoint, answer: string)
    requires g.Wired() && Reachable(g, log) && IsCheckpointOf(cp, cp.runID, log) && cp.step >= 0
    ensures log != []
    ensures Returned(g, log, cp.runID, Failed(cp.state, CheckpointError), true)
    ensures MatchesReference(g, log, Failed(cp.state, CheckpointError))
    ensures var log' := log + [ResumeRecord(log, cp, answer)];
      Reachable(g, log') && Returned(g, log', cp.runID, Failed(cp.state, CheckpointError), true)
      && MatchesReference(g, log', Failed(cp.state, CheckpointError))
  {
    hide Runnable.Wired, Reachable, ReplayLog, Returned, MatchesReference, Positioned;
    AnswerPositions(g, log, cp, answer);
    var log1 := log + [ResumeRecord(log, cp, answer)];
    PositionedAt(g, log1, cp.state, cp.node, cp.step, ReplayLog(log).path, Some(answer));
    BrokenReturns(g, log, cp.runID, cp.state);
    BrokenReturns(g, log1, cp.runID, cp.state);
  }

  lemma {:induction false} StillAnswered(asked: seq<Record>, cp: Checkpoint, answer: string, log: seq<Record>)
    requires cp.step >= 0
    requires var log1 := asked + [ResumeRecord(asked, cp, answer)];
      log1 <= log && Steered(log) == Steered(log1)
      && Steered(log1) == Steered(asked) + [RunLog.Resume(cp.node, cp.step + 1, answer)]
      && Given(log1) == Given(asked) + [answer]
    ensures Answered(asked, cp, answer, log)
  {
    hide Steered;
  }

  /** Resume, with the checkpoint of the question the run is paused on, or with
      one of a run that the store has never seen. The answer given is logged,
      that one and no other; the report goes on from the checkpoint's. */
  method Resume(g: Runnable, store: Store, cp: Checkpoint, answer: string, charges: nat -> Charges)
    returns (res: Outcome, rec: Recorder)
    requires g.Wired() && Reachable(g, store.Log(cp.runID))
    requires store.Log(cp.runID) == [] || IsCheckpointOf(cp, cp.runID, store.Log(cp.runID))
    modifies store
    ensures store.Grew(cp.runID) && Reachable(g, store.Log(cp.runID))
    ensures cp.node !in g.nodes || cp.node in g.branches || cp.step < 0 ==>
      res == Failed(cp.state, BadArgument) && store.Log(cp.runID) == old(store.Log(cp.runID)) && Blank(rec)
    ensures cp.node in g.nodes && cp.node !in g.branches && cp.step >= 0 ==>
      var log0, log := old(store.Log(cp.runID)), store.Log(cp.runID);
      && (Answered(Asked(g, cp, log0), cp, answer, log) || (res.Failed? && log0 <= log <= Asked(g, cp, log0)))
      && (store.faults == old(store.faults) ==> Answered(Asked(g, cp, log0), cp, answer, log))
      && (log != [] ==> Returned(g, log, cp.runID, res, store.faults > old(store.faults)))
      && rec.prior == cp.prior
      && (|| Accounted(rec, log, res, cp.path, ReplayLog(Asked(g, cp, log0)).path)
          || (NotResumed(rec, cp, res) && store.faults > old(store.faults)
              && log <= Asked(g, cp, log0) + [ResumeRecord(Asked(g, cp, log0), cp, answer)]))
    ensures Given(store.Log(cp.runID)) == Given(old(store.Log(cp.runID)))
            || Given(store.Log(cp.runID)) == Given(old(store.Log(cp.runID))) + [answer]
    ensures MatchesReference(g, store.Log(cp.runID), res)
    ensures !res.Failed? && old(store.Log(cp.runID)) == [] ==>
      ReplayLog(store.Log(cp.runID)).path != [] && rec.path == cp.path + ReplayLog(store.Log(cp.runID)).path[1..]
    ensures TotalCost(rec.steps) == if cp.step < 0 then 0.0 else Spent(g, Top(rec.steps), cp.step, charges)
  {
    hide OpenNode, Steered, Runnable.Wired, Positioned, Settled, Stopped, Returned, ReplayLog, Reachable, Carries,
      Top, Logged, Spent, Accounted, MatchesReference, Given, IsCheckpointOf, ImportLog;
    rec := new Recorder([]);
    NothingSpent(g, if cp.step < 0 then 0 else cp.step, charges);
    if !g.Steppable(cp.node) { return Refused(g, store.Log(cp.runID), cp.state, BadArgument), rec; }
    if cp.step < 0 { return Refused(g, store.Log(cp.runID), cp.state, BadArgument), rec; }
    rec := new Recorder(cp.prior);
    ghost var log0 := store.Log(cp.runID);
    BeforeResume(g, cp, answer, log0);
    var recs, ok := store.Load(cp.runID);
    if !ok { return Refused(g, log0, cp.state, CheckpointError), rec; }
    var w := new CkWriter(store, cp.runID, if recs == [] then 0 else recs[|recs| - 1].seq_);
    if recs == [] {
      ok := LogImport(g, w, cp);
      if !ok {
        PartOfImport(g, cp, w.Log());
        return Failed(cp.state, CheckpointError), rec;
      }
    }
    res := Reexecute(g, w, rec, cp, answer, charges, old(store.faults));
    if !res.Failed? { AccountedShows(rec, w.Log(), res, cp.path, ReplayLog(Asked(g, cp, log0)).path); }
  }

  lemma {:induction false} AccountedShows(rec: Recorder, log: seq<Record>, res: Outcome, held0: seq<string>,
          logged0: seq<string>)
    requires Accounted(rec, log, res, held0, logged0) && !res.Failed?
    ensures Reported(rec, log) && GoesOn(rec.path, held0, logged0, ReplayLog(log).path)
  {
    hide Carries, ReplayLog, Top, GoesOn;
  }

  lemma {:induction false} NothingSpent(g: Runnable, step0: nat, charges: nat -> Charges)
    ensures TotalCost([]) == Spent(g, Top([]), step0, charges) == 0.0 && Top([]) == []
  {}

  lemma {:induction false} BeforeResume(g: Runnable, cp: Checkpoint, answer: string, log0: seq<Record>)
    requires g.Wired() && Reachable(g, log0) && g.Steppable(cp.node) && cp.step >= 0
    requires log0 == [] || IsCheckpointOf(cp, cp.runID, log0)
    ensures var asked := Asked(g, cp, log0);
      && Reachable(g, asked) && IsCheckpointOf(cp, cp.runID, asked) && Given(asked) == Given(log0) && log0 <= asked
      && (log0 == [] ==> |ReplayLog(asked).path| == 1 && Given([]) == [])
    ensures log0 != [] ==>
      log0[|log0| - 1].seq_ == |log0| && Returned(g, log0, cp.runID, Failed(cp.state, CheckpointError), true)
  {
    assert Given([]) == [];
    hide Runnable.Wired, Reachable, Steered, ReplayLog, IsCheckpointOf, ImportLog;
    if log0 == [] {
      ImportReplays(g, cp);
      ImportIsSteered(g, cp);
    } else {
      SeqIsDense(g, log0, |log0| - 1);
      BrokenReturns(g, log0, cp.runID, cp.state);
    }
  }

  /** An import cut short. */
  lemma {:induction false} PartOfImport(g: Runnable, cp: Checkpoint, log: seq<Record>)
    requires g.Wired() && g.Steppable(cp.node) && cp.step >= 0 && log <= ImportLog(g, cp)
    ensures Reachable(g, log) && Given(log) == [] && MatchesReference(g, log, Failed(cp.state, CheckpointError))
    ensures log != [] ==> Returned(g, log, cp.runID, Failed(cp.state, CheckpointError), true)
  {
    ImportReplays(g, cp);
    ImportIsSteered(g, cp);
    assert Given([]) == [];
    hide Steered, Reachable;
    var all := ImportLog(g, cp);
    assert log == [] || log == all[..1] || log == all;
    if log != [] { BrokenReturns(g, log, cp.runID, cp.state); }
  }

  // ----- what an import loses, and what it keeps -----

  /** The first entry of what an imported log carries is the import itself. */
  lemma {:induction false} ImportComesFirst(g: Runnable, cp: Checkpoint, log: seq<Record>)
    requires g.Wired() && g.Steppable(cp.node) && cp.step >= 0 && ImportLog(g, cp) <= log
    ensures var p := ReplayLog(log);
      p.path != [] && p.path[0] == cp.node && p.steps != [] && p.steps[0] == StepRec(cp.node, "", 0.0, true, IMPORTED)
  {
    hide Runnable.Wired, Apply, ReplayLog;
    ImportReplays(g, cp);
    if |log| == 2 {
      assert log == ImportLog(g, cp);
    } else {
      var prev, r := log[..|log| - 1], log[|log| - 1];
      ImportComesFirst(g, cp, prev);
      assert log == prev + [r];
      ReplaySnoc(prev, r);
      OnlyAppends(ReplayLog(prev), r);
    }
  }

  lemma OnlyAppends(p: Replay, r: Record)
    ensures p.path <= Apply(p, r).path && p.steps <= Apply(p, r).steps
  {}

  /** WHAT AN IMPORT LOSES. In the importing process path and report go on from
      the checkpoint's (Resume); from the log, a later process restores what it
      can. The two agree on the path if and only if the checkpoint's path is
      its node alone, on how often a node has run if and only if they agree on
      that at the import, and on the report if and only if the checkpoint's is
      the import's own step, on its cost if and only if that cost nothing. */
  lemma {:induction false} ImportForgetsThePast(g: Runnable, cp: Checkpoint, log: seq<Record>, n: string)
    requires g.Wired() && g.Steppable(cp.node) && cp.step >= 0 && ImportLog(g, cp) <= log
    ensures var p := ReplayLog(log);
      p.path != [] && p.steps != [] &&
      var path, steps := cp.path + p.path[1..], Top(cp.prior) + p.steps[1..];
      && (p.path == path <==> cp.path == [cp.node])
      && (multiset(p.path)[n] == multiset(path)[n] <==> multiset([cp.node])[n] == multiset(cp.path)[n])
      && (p.steps == steps <==> Top(cp.prior) == [StepRec(cp.node, "", 0.0, true, IMPORTED)])
      && (TotalCost(p.steps) == TotalCost(steps) <==> TotalCost(Top(cp.prior)) == 0.0)
  {
    hide ReplayLog, Top, Runnable.Wired, ImportLog;
    ImportComesFirst(g, cp, log);
    var p := ReplayLog(log);
    var first := StepRec(cp.node, "", 0.0, true, IMPORTED);
    assert p.path == [cp.node] + p.path[1..] && p.steps == [first] + p.steps[1..];
    SameHeads(cp.path, [cp.node], p.path[1..]);
    SameHeads(Top(cp.prior), [first], p.steps[1..]);
    CostJoins([first], p.steps[1..]);
    CostJoins(Top(cp.prior), p.steps[1..]);
    assert [first][..0] == [];
  }

  lemma SameHeads<T>(xs: seq<T>, ys: seq<T>, rest: seq<T>)
    ensures xs + rest == ys + rest <==> xs == ys
  {
    if xs + rest == ys + rest { assert xs == (xs + rest)[..|xs|] && ys == (ys + rest)[..|ys|]; }
  }

  /** A checkpoint with which it shows: two nodes on the path, one dollar spent. */
  lemma {:induction false} ImportLosesANode(g: Runnable, a: string, b: string)
    requires g.Wired() && g.Steppable(b)
    ensures var cp := Checkpoint("run", "{}", b, 1, [a, b],
        [StepRec(a, "", 1.0, false, ""), StepRec(b, "", 0.0, true, "ok?")]);
      var p := ReplayLog(ImportLog(g, cp));
      p.path == [b] != cp.path && TotalCost(p.steps) == 0.0 && TotalCost(cp.prior) == 1.0
  {
    var cp := Checkpoint("run", "{}", b, 1, [a, b], [StepRec(a, "", 1.0, false, ""), StepRec(b, "", 0.0, true, "ok?")]);
    ImportReplays(g, cp);
    assert cp.prior[..1] == [cp.prior[0]] && cp.prior[..1][..0] == [];
    assert Logged(ImportLog(g, cp))[..0] == [];
  }

  /** Cut short after its first record, an import has lost the question: Recover
      would execute the node, without an answer. */
  lemma {:induction false} ImportCutShort(g: Runnable, cp: Checkpoint)
    requires g.Wired() && g.Steppable(cp.node) && cp.step >= 0
    ensures Positioned(g, ImportLog(g, cp)[..1], cp.state, cp.node, cp.step, [], None)
    ensures ReplayLog(ImportLog(g, cp)[..1]).pending.None?
  {
    ImportReplays(g, cp);
    var log := ImportLog(g, cp)[..1];
    assert log == [] + [log[0]] && ReplayLog([]) == EMPTY;
    ReplaySnoc([], log[0]);
  }

  /** WHERE RESUME RESUMES. The log that Resume leaves for its loop replays to
      where that loop starts, with the answer, if and only if the checkpoint is
      the one of the log's pending question, answered already or not. */
  lemma {:induction false} ResumesWhereAsked(g: Runnable, log: seq<Record>, cp: Checkpoint, answer: string)
    requires g.Wired() && Reachable(g, log) && log != [] && cp.step >= 0
    ensures var p := ReplayLog(log + [ResumeRecord(log, cp, answer)]);
      (p.state == cp.state && p.next == cp.node && p.step == cp.step && p.answer == Some(answer))
      <==> Asks(cp, cp.runID, ReplayLog(log))
  {
    hide Runnable.Wired, Reachable;
    ReachableIsConsistent(g, log);
    ReplaySnoc(log, ResumeRecord(log, cp, answer));
  }

  /** With any other checkpoint the log stays where it was and knows of no answer,
      while the loop executes the checkpoint's node: what it commits then is no
      execution that this log has next. */
  lemma {:induction false} StaleResumeDiverges(g: Runnable, log: seq<Record>, cp: Checkpoint, answer: string)
    requires g.Wired() && Reachable(g, log) && log != [] && cp.step >= 0 && ReplayLog(log).pending.None?
    ensures var log' := log + [ResumeRecord(log, cp, answer)];
      var p, p' := ReplayLog(log), ReplayLog(log');
      && p'.answer.None? && p'.state == p.state && p'.next == p.next && p'.step == p.step && p'.path == p.path
      && (cp.node != p.next || cp.step != p.step ==>
            forall b: Body, t | b.NodeCommit? && b.node == cp.node && b.step == cp.step + 1 ::
              !LegalAfter(g, p', t, b))
  {
    hide Runnable.Wired, Reachable;
    ReachableIsConsistent(g, log);
    ReplaySnoc(log, ResumeRecord(log, cp, answer));
  }

  /** A checkpoint with which it happens: the import of it was cut short, and it
      is resumed again. */
  lemma {:induction false} ResumedAgainIsDeaf(g: Runnable, cp: Checkpoint, answer: string)
    requires g.Wired() && g.Steppable(cp.node) && cp.step >= 0
    ensures var log := ImportLog(g, cp)[..1];
      Reachable(g, log) && ReplayLog(log + [ResumeRecord(log, cp, answer)]).answer.None?
  {
    ImportReplays(g, cp);
    ImportCutShort(g, cp);
    StaleResumeDiverges(g, ImportLog(g, cp)[..1], cp, answer);
  }

  /** WHAT AN IMPORT KEEPS. However often an imported run crashes and is
      recovered, it moves by steps of the reference run from the checkpoint on:
      if it finishes, then where that run ends on the same answers. */
  lemma {:induction false} ImportedRunRefines(g: Runnable, cp: Checkpoint, log: seq<Record>, answers: seq<string>)
    requires g.Wired() && g.Steppable(cp.node) && cp.step >= 0 && ImportLog(g, cp) <= log
    requires Reachable(g, log) && NoForkSince(log, 2) && Abs(log).used <= answers
    ensures exists n: nat :: Abs(log) == Iterate(g, answers, ImportedAt(cp), n)
    ensures ReplayLog(log).Finished() ==>
      Abs(log) == Iterate(g, answers, ImportedAt(cp), g.maxSteps + 2 * |answers| + 1) && Abs(log).next == END
  {
    hide Runnable.Wired, Reachable, Abs, ReplayLog, Iterate;
    ImportIsAt(g, cp);
    assert log[..2] == ImportLog(g, cp) && Imported(log);
    LogRefinesReference(g, log, 2, answers);
    if ReplayLog(log).Finished() { FinishedIsReferenceResult(g, log, answers); }
  }

  // ----- Recover -----

  /** The session that a recovered node may continue: one that its own
      unfinished execution logged. */
  function SessionFor(p: Replay, cur: string, step: nat): string {
    if p.sessNode == cur && p.sessStep == step + 1 then p.sessID else ""
  }

  function RecoverRecord(p: Replay): Body {
    RunLog.Recover(p.next, p.step + 1, p.endErr, SessionFor(p, p.next, p.step))
  }

  lemma {:induction false} RecoverPositions(g: Runnable, log: seq<Record>)
    requires g.Wired() && log != [] && Reachable(g, log)
    requires !ReplayLog(log).Finished() && !ReplayLog(log).Waiting()
    ensures var p := ReplayLog(log);
      && Positioned(g, Restarted(log), p.state, p.next, p.step, p.path, p.answer)
      && (p.next == END || g.Steppable(p.next)) && p.last == |log|
      && (p.answer.Some? ==> p.pending.Some? && p.pending.value.node == p.next && p.pending.value.step == p.step + 1)
      && Carries(Restarted(log), p.path, p.path) && Carries(Restarted(log), Top(p.steps), Logged(Restarted(log)))
      && ReplayLog(Restarted(log)).path == p.path
    ensures Reachable(g, Restarted(log))
  {
    hide Carries, Top, Steered;
    var p, r := ReplayLog(log), Record(|log| + 1, RecoverRecord(ReplayLog(log)));
    LoggedSnoc(log, r);
    ReachableIsConsistent(g, log);
    ReachableSnoc(g, log, r);
    SameOriginAfter(log, r);
    CarriesItself(g, log);
    CarriesStill(log, log + [r], p.path, p.path);
    CarriesStill(log, log + [r], p.steps, p.steps);
  }

  /** What replay restores is what the log carries. */
  lemma {:induction false} CarriesItself(g: Runnable, log: seq<Record>)
    requires g.Wired() && Reachable(g, log)
    ensures Carries(log, ReplayLog(log).path, ReplayLog(log).path)
    ensures Carries(log, ReplayLog(log).steps, Logged(log)) && Top(ReplayLog(log).steps) == ReplayLog(log).steps
  {
    hide Runnable.Wired, Reachable, ReplayLog, Top;
    LoggedIsTop(log);
    if Imported(log) { ImportedHasPath(log); }
  }

  lemma {:induction false} ImportedHasPath(log: seq<Record>)
    requires Imported(log)
    ensures ReplayLog(log).path != [] && ReplayLog(log).steps != []
  {
    hide Apply;
    var prev, r := log[..|log| - 1], log[|log| - 1];
    assert log == prev + [r];
    ReplaySnoc(prev, r);
    OnlyAppends(ReplayLog(prev), r);
    if |log| > 2 {
      ImportedHasPath(prev);
    } else {
      InterruptAppends(ReplayLog(prev), r);
    }
  }

  lemma InterruptAppends(p: Replay, r: Record)
    requires r.body.Interrupt?
    ensures Apply(p, r).path != [] && Apply(p, r).steps != []
  {}

  /** A finished or a paused run: nothing is executed. */
  lemma {:induction false} NothingToDo(g: Runnable, log: seq<Record>, runID: string)
    requires g.Wired() && log != [] && Reachable(g, log)
    ensures var p := ReplayLog(log);
      && p.started && !(p.Finished() && p.Waiting())
      && (p.Finished() ==> Returned(g, log, runID, Finished(p.state), false)
                           && MatchesReference(g, log, Finished(p.state)))
      && (p.Waiting() ==> Returned(g, log, runID,
           Paused(Checkpoint(runID, p.state, p.pending.value.node, p.pending.value.step - 1, p.path, p.steps),
                  p.pending.value.question), false))
      && Carries(log, p.path, p.path) && Carries(log, Top(p.steps), Logged(log))
  {
    hide Runnable.Wired, Reachable, ReplayLog, Abs, Halted, MatchesReference, Carries, Top;
    ReachableIsConsistent(g, log);
    CarriesItself(g, log);
    if ReplayLog(log).Finished() {
      FinishedIsHalted(g, log, Abs(log).used + AsSeq(ReplayLog(log).answer));
      ReturnedMatches(g, log, runID, Finished(ReplayLog(log).state), false);
    }
    if ReplayLog(log).Waiting() { WaitingIsSettled(g, log); }
  }

  function Restarted(log: seq<Record>): seq<Record> {
    log + [Record(|log| + 1, RecoverRecord(ReplayLog(log)))]
  }

  /** The part of Recover that runs nodes: an answered question is answered
      again, anything else goes on where the last commit routed. */
  method Restart(g: Runnable, store: Store, runID: string, p: Replay, rec: Recorder, charges: nat -> Charges)
    returns (res: Outcome)
    requires g.Wired() && store.Log(runID) != [] && Reachable(g, store.Log(runID))
    requires p == ReplayLog(store.Log(runID)) && !p.Finished() && !p.Waiting()
    requires rec.prior == p.steps && rec.steps == [] && rec.path == p.path
    modifies store, rec`path, rec`steps, rec`visits
    ensures store.WentOn(runID)
    ensures Reachable(g, store.Log(runID)) && store.Log(runID) != []
    ensures Returned(g, store.Log(runID), runID, res, store.faults > old(store.faults))
    ensures store.faults == old(store.faults) ==> Restarted(old(store.Log(runID))) <= store.Log(runID)
    ensures MatchesReference(g, store.Log(runID), res)
    ensures Accounted(rec, store.Log(runID), res, p.path, p.path)
    ensures TotalCost(rec.steps) == Spent(g, Top(rec.steps), p.step, charges)
  {
    hide OpenNode, Steered, Runnable.Wired, Positioned, Settled, Stopped, Reachable, Returned, MatchesReference,
      ReplayLog, Top, SessionFor, TotalCost, Spent, Carries, Accounted;
    NothingSpent(g, p.step, charges);
    var cur, step := p.next, p.step;
    RecoverPositions(g, store.Log(runID));
    CarriesItself(g, store.Log(runID));
    NothingExecuted(rec, store.Log(runID), p.path, p.state);
    NothingExecuted(rec, Restarted(store.Log(runID)), p.path, p.state);
    if p.answer.Some? {
      cur, step := p.pending.value.node, p.pending.value.step - 1;
    }
    assert cur == END || g.Steppable(cur); // so the source's own check of cur never fails
    var w := new CkWriter(store, runID, p.last);
    var ok := w.Append(RunLog.Recover(cur, step + 1, p.endErr, SessionFor(p, cur, step)));
    BrokenReturns(g, store.Log(runID), runID, p.state);
    if !ok { return Failed(p.state, CheckpointError); }
    res := Segment(g, w, rec, p.state, cur, step, p.path, p.answer, charges, p.path, old(store.faults));
  }

  /** What Recover makes of the replayed log. */
  method Proceed(g: Runnable, store: Store, runID: string, p: Replay, charges: nat -> Charges)
    returns (res: Outcome, rec: Recorder)
    requires g.Wired() && store.Log(runID) != [] && Reachable(g, store.Log(runID)) && p == ReplayLog(store.Log(runID))
    modifies store
    ensures store.WentOn(runID)
    ensures Reachable(g, store.Log(runID))
    ensures Returned(g, store.Log(runID), runID, res, store.faults > old(store.faults))
    ensures p.Finished() || p.Waiting() ==>
      store.Log(runID) == old(store.Log(runID)) && store.faults == old(store.faults)
    ensures p.Finished() ==> res == Finished(p.state)
    ensures p.Waiting() ==> res.Paused?
    ensures store.faults == old(store.faults) && !p.Finished() && !p.Waiting() ==>
      Restarted(old(store.Log(runID))) <= store.Log(runID)
    ensures MatchesReference(g, store.Log(runID), res)
    ensures Accounted(rec, store.Log(runID), res, p.path, p.path)
    ensures rec.prior == p.steps && TotalCost(rec.steps) == Spent(g, Top(rec.steps), p.step, charges)
  {
    hide OpenNode, Steered, Runnable.Wired, Settled, Returned, ReplayLog, Reachable, Restarted, Top, TotalCost,
      Spent, Carries, Complete;
    NothingSpent(g, p.step, charges);
    ghost var log := store.Log(runID);
    rec := new Recorder(p.steps);
    rec.path := p.path;
    NothingToDo(g, log, runID);
    NothingExecuted(rec, log, p.path, p.state);
    if p.Finished() {
      res := Finished(p.state);
    } else if p.Waiting() {
      res := Paused(Checkpoint(runID, p.state, p.pending.value.node, p.pending.value.step - 1, p.path, p.steps),
                    p.pending.value.question);
    } else {
      res := Restart(g, store, runID, p, rec, charges);
    }
  }

  /** Why a log is not continued: it is not there, or the run was started on
      another topology. */
  function Refusal(g: Runnable, log: seq<Record>): Option<Error> {
    if log == [] || !log[0].body.RunStart? then Some(NotFound)
    else if log[0].body.topoHash != g.topoHash && !g.allowTopo then Some(TopologyChanged)
    else None
  }

  /** A call that did nothing: for reason e, or because the store failed. */
  predicate Declined(rec: Recorder, res: Outcome, e: Option<Error>, faulty: bool)
    reads rec
  {
    Blank(rec) && (faulty || e.Some?) && res == Failed("", if faulty then CheckpointError else e.value)
  }

  /** Recover. A finished run is not touched, a paused one hands its question
      out again, and any other continues from its last commit. */
  method Recover(g: Runnable, store: Store, runID: string, charges: nat -> Charges)
    returns (res: Outcome, rec: Recorder)
    requires g.Wired() && Reachable(g, store.Log(runID))
    modifies store
    ensures store.WentOn(runID)
    ensures Reachable(g, store.Log(runID))
    ensures var log0, p := old(store.Log(runID)), ReplayLog(old(store.Log(runID)));
      || (Declined(rec, res, Refusal(g, log0), store.faults > old(store.faults)) && store.Log(runID) == log0)
      || (Refusal(g, log0).None? && rec.prior == p.steps
          && Returned(g, store.Log(runID), runID, res, store.faults > old(store.faults))
          && Accounted(rec, store.Log(runID), res, p.path, p.path))
    ensures var p := ReplayLog(old(store.Log(runID)));
      p.Finished() || p.Waiting() ==> store.Log(runID) == old(store.Log(runID))
    ensures var p := ReplayLog(old(store.Log(runID)));
      store.faults == old(store.faults) && Refusal(g, old(store.Log(runID))).None? ==>
        && (p.Finished() ==> res == Finished(p.state)) && (p.Waiting() ==> res.Paused?)
        && (!p.Finished() && !p.Waiting() ==> Restarted(old(store.Log(runID))) <= store.Log(runID))
    ensures MatchesReference(g, store.Log(runID), res)
    ensures TotalCost(rec.steps) == Spent(g, Top(rec.steps), ReplayLog(old(store.Log(runID))).step, charges)
  {
    assert !ReplayLog([]).started;
    hide OpenNode, Steered, Runnable.Wired, Settled, Returned, MatchesReference, ReplayLog, Reachable, Restarted,
      Top, TotalCost, Spent, Accounted;
    NothingSpent(g, ReplayLog(store.Log(runID)).step, charges);
    ghost var log := store.Log(runID);
    rec := new Recorder([]);
    if log != [] { HashIsKept(g, log); }
    ReachableIsConsistent(g, log);
    var recs, ok := store.Load(runID);
    if !ok { return Refused(g, log, "", CheckpointError), rec; }
    if recs == [] { return Refused(g, log, "", NotFound), rec; }
    var replayed := ReplayRecords(recs);
    var p := replayed.value;
    if p.topoHash != g.topoHash && !g.allowTopo { return Refused(g, log, "", TopologyChanged), rec; }
    res, rec := Proceed(g, store, runID, p, charges);
  }

  /** An error that leaves the log alone. */
  function Refused(g: Runnable, ghost log: seq<Record>, s: State, e: Error): (res: Outcome)
    requires g.Wired()
    ensures res == Failed(s, e) && MatchesReference(g, log, res)
  {
    Failed(s, e)
  }

  // ----- Fork -----

  /** The log that Fork starts a run with: src up to record at, then the fork. */
  function ForkLog(src: seq<Record>, fromRun: string, at: nat, edit: State -> State): seq<Record>
    requires 1 <= at <= |src|
  {
    var p := ReplayLog(src[..at]);
    src[..at] + [Record(at + 1, RunLog.Fork(fromRun, at, edit(p.state), p.next, p.step))]
  }

  /** The forked log replays to the edited state, at the same node and step with
      the same path, and waits for nothing. */
  lemma {:induction false} ForkReplays(g: Runnable, src: seq<Record>, fromRun: string, at: nat, edit: State -> State)
    requires g.Wired() && Reachable(g, src) && 1 <= at <= |src| && ForkPoint(src[at - 1].body)
    ensures var log := ForkLog(src, fromRun, at, edit);
      var p, p' := ReplayLog(src[..at]), ReplayLog(log);
      && Reachable(g, log)
      && log == src[..at] + [Record(at + 1, RunLog.Fork(fromRun, at, edit(p.state), p.next, p.step))]
      && p'.state == edit(p.state) && p'.next == p.next && p'.step == p.step && p'.path == p.path && p'.steps == p.steps
      && p'.started && p'.topoHash == p.topoHash && p'.pending.None? && !p'.Finished()
      && Abs(log) == Abs(src[..at]).(state := edit(Abs(src[..at]).state)) && Given(log) == Given(src[..at])
  {
    hide Steered;
    var pre, log := src[..at], ForkLog(src, fromRun, at, edit);
    ReachablePrefix(g, src, at);
    ReachableIsConsistent(g, pre);
    assert pre[at - 1] == src[at - 1];
    ReachableSnoc(g, pre, log[at]);
    ForkAbs(g, pre, log[at]);
    SteeredSnoc(pre, log[at]);
    AnswersSnoc(Steered(pre), log[at].body);
  }

  lemma {:induction false} ForkAbs(g: Runnable, pre: seq<Record>, r: Record)
    requires g.Wired() && pre != [] && Reachable(g, pre) && ForkPoint(pre[|pre| - 1].body)
    requires r.body.Fork? && r.body.next == ReplayLog(pre).next && r.body.step == ReplayLog(pre).step
    ensures Abs(pre + [r]) == Abs(pre).(state := r.body.state)
    ensures Abs(pre).state == ReplayLog(pre).state
  {
    hide Runnable.Wired, Reachable, ReplayLog, Abs;
    ReplayRestores(g, pre);
    AbsSnoc(pre, r);
    AskedNothing(g, pre);
  }

  lemma {:induction false} AskedNothing(g: Runnable, log: seq<Record>)
    requires g.Wired() && log != [] && ForkPoint(log[|log| - 1].body)
    ensures Abs(log).asked.None?
  {
    hide Runnable.Wired, Abs, ReplayLog;
    var prev, r := log[..|log| - 1], log[|log| - 1];
    assert log == prev + [r];
    AbsSnoc(prev, r);
  }

  /** FORK CONTINUES. Forked with an identity edit, a run ends where the source
      run ends that went on from the same record with the same answers, however
      often either of them crashed. */
  lemma {:induction false} ForkContinues(g: Runnable, src: seq<Record>, fromRun: string, at: nat, forked: seq<Record>,
          c: Config, answers: seq<string>, d: Config, e: Config)
    requires g.Wired() && Went(g, src, at, c, answers, d) && ForkPoint(src[at - 1].body)
    requires Reachable(g, forked) && ForkLog(src, fromRun, at, s => s) <= forked && NoForkSince(forked, at + 1)
    requires Abs(forked) == e && e.used <= answers && Halted(g, answers, e)
    ensures e == d
  {
    hide Runnable.Wired, Reachable, ReplayLog, Abs, Halted;
    ForkReplays(g, src, fromRun, at, s => s);
    assert forked[..at + 1] == ForkLog(src, fromRun, at, s => s);
    CrashEquivalence(g, c, answers, src, at, d, forked, at + 1, e);
  }

  /** The record to fork at: the last one numbered atSeq that is a commit, a
      run_start or a fork. */
  method FindForkPoint(recs: seq<Record>, atSeq: int) returns (at: int)
    requires forall i | 0 <= i < |recs| :: recs[i].seq_ == i + 1
    ensures at == if 1 <= atSeq <= |recs| && ForkPoint(recs[atSeq - 1].body) then atSeq - 1 else -1
    ensures at >= 0 <==>
      1 <= atSeq <= |recs| &&
      var b := recs[atSeq - 1].body; b.NodeCommit? || b.RunStart? || b.Fork?
  {
    at := -1;
    for i := 0 to |recs|
      invariant at == if 1 <= atSeq <= i && ForkPoint(recs[atSeq - 1].body) then atSeq - 1 else -1
    {
      if recs[i].seq_ == atSeq && ForkPoint(recs[i].body) { at := i; }
    }
  }

  /** Copies prefix to the new run, record by record. */
  method CopyPrefix(store: Store, newID: string, prefix: seq<Record>) returns (ok: bool)
    requires store.Log(newID) == []
    modifies store
    ensures store.Grew(newID) && store.Log(newID) <= prefix
    ensures ok ==> store.Log(newID) == prefix && store.faults == old(store.faults)
    ensures !ok ==> store.faults > old(store.faults)
  {
    for i := 0 to |prefix|
      invariant store.Grew(newID) && store.faults == old(store.faults)
      invariant store.Log(newID) == prefix[..i]
    {
      assert prefix[..i + 1] == prefix[..i] + [prefix[i]];
      ok := store.Append(newID, prefix[i]);
      if !ok { return; }
    }
    ok := true;
  }

  lemma {:induction false} PrefixesAreReachable(g: Runnable, src: seq<Record>, at: nat)
    requires g.Wired() && Reachable(g, src) && at <= |src|
    ensures forall log | log <= src[..at] :: Reachable(g, log)
  {
    forall log | log <= src[..at] ensures Reachable(g, log) {
      ReachablePrefix(g, src, |log|);
      assert log == src[..|log|];
    }
  }

  /** What a fork of src at record at can have written to the new run. */
  ghost predicate ForkedFrom(src: seq<Record>, fromID: string, at: nat, edit: State -> State, log: seq<Record>)
    requires 1 <= at <= |src|
  {
    var start := ForkLog(src, fromID, at, edit);
    log <= src[..at] || (start <= log && Steered(log) == Steered(start))
  }

  lemma ForkedFromEither(src: seq<Record>, fromID: string, at: nat, edit: State -> State)
    requires 1 <= at <= |src|
    ensures forall log | ForkLog(src, fromID, at, edit) <= log
            && Steered(log) == Steered(ForkLog(src, fromID, at, edit)) ::
      ForkedFrom(src, fromID, at, edit, log)
    ensures forall log | log <= src[..at] :: ForkedFrom(src, fromID, at, edit, log)
  {}

  /** What a fork that nothing forbids returns: that the store failed it, or what
      Recover makes of its log, start. */
  ghost predicate ForkTells(g: Runnable, start: seq<Record>, p: Replay, newID: string, log: seq<Record>, res: Outcome,
          rec: Recorder, faulty: bool)
    requires g.Wired()
    reads rec
  {
    || (Declined(rec, res, None, faulty) && log <= start)
    || (start <= log && NoForkSince(log, |start|) && Returned(g, log, newID, res, faulty)
        && rec.prior == p.steps && Accounted(rec, log, res, p.path, p.path))
  }

  /** Fork, once it has found its record: copy, fork, recover. */
  method StartFork(g: Runnable, store: Store, ghost src: seq<Record>, fromID: string, at: nat, prefix: seq<Record>,
          p: Replay, newID: string, edit: State -> State, charges: nat -> Charges)
    returns (res: Outcome, rec: Recorder)
    requires g.Wired() && Reachable(g, src) && 1 <= at <= |src| && ForkPoint(src[at - 1].body)
    requires prefix == src[..at] && p == ReplayLog(prefix) && store.Log(newID) == []
    requires p.topoHash == g.topoHash || g.allowTopo
    modifies store
    ensures store.Grew(newID)
    ensures Reachable(g, store.Log(newID)) && ForkedFrom(src, fromID, at, edit, store.Log(newID))
    ensures ForkLog(src, fromID, at, edit) <= store.Log(newID) ==> NoForkSince(store.Log(newID), at + 1)
    ensures ForkTells(g, ForkLog(src, fromID, at, edit), p, newID, store.Log(newID), res, rec,
                      store.faults > old(store.faults))
    ensures TotalCost(rec.steps) == Spent(g, Top(rec.steps), p.step, charges)
  {
    hide OpenNode, Steered, Steers, Runnable.Wired, Runnable.Next, Returned, MatchesReference, Reachable, ForkLog,
      ForkedFrom, ReplayLog, Accounted, TotalCost, Spent, Top;
    NothingSpent(g, p.step, charges);
    ReachablePrefix(g, src, at);
    ReachableIsConsistent(g, prefix);
    ForkReplays(g, src, fromID, at, edit);
    PrefixesAreReachable(g, src, at);
    ForkedFromEither(src, fromID, at, edit);
    rec := new Recorder([]);
    var ok := CopyPrefix(store, newID, prefix);
    if !ok { return Failed("", CheckpointError), rec; }
    var w := new CkWriter(store, newID, p.last);
    ok := w.Append(RunLog.Fork(fromID, at, edit(p.state), p.next, p.step));
    if !ok { return Failed("", CheckpointError), rec; }
    assert store.Log(newID) == ForkLog(src, fromID, at, edit);
    res, rec := RecoverFork(g, store, newID, ForkLog(src, fromID, at, edit), charges);
  }

  /** The last line of Fork. */
  method RecoverFork(g: Runnable, store: Store, newID: string, ghost start: seq<Record>, charges: nat -> Charges)
    returns (res: Outcome, rec: Recorder)
    requires g.Wired() && store.Log(newID) == start != [] && Reachable(g, start)
    requires ReplayLog(start).started && (ReplayLog(start).topoHash == g.topoHash || g.allowTopo)
    modifies store
    ensures store.Grew(newID)
    ensures Reachable(g, store.Log(newID)) && start <= store.Log(newID) && NoForkSince(store.Log(newID), |start|)
    ensures Steered(store.Log(newID)) == Steered(start)
    ensures var p := ReplayLog(start);
      || (Declined(rec, res, None, store.faults > old(store.faults)) && store.Log(newID) == start)
      || (rec.prior == p.steps && Returned(g, store.Log(newID), newID, res, store.faults > old(store.faults))
          && Accounted(rec, store.Log(newID), res, p.path, p.path))
    ensures TotalCost(rec.steps) == Spent(g, Top(rec.steps), ReplayLog(start).step, charges)
  {
    hide OpenNode, Steered, Runnable.Wired, Settled, Returned, MatchesReference, Reachable, ReplayLog, Restarted,
      Accounted, TotalCost, Spent, Top;
    res, rec := Recover(g, store, newID, charges);
    assert store.Log(newID)[..|start|] == start;
    HashIsKept(g, start);
    SteeredSince(store.Log(newID), |start|);
  }

  /** Why src is not forked at the record numbered atSeq into newID, whose log
      is taken. */
  function ForkRefusal(g: Runnable, src: seq<Record>, taken: seq<Record>, fromID: string, atSeq: int, newID: string):
        (e: Option<Error>)
    ensures e.None? ==>
      fromID != newID && 1 <= atSeq <= |src| && ForkPoint(src[atSeq - 1].body) && taken == []
  {
    if fromID == newID then Some(BadArgument)
    else if src == [] then Some(NotFound)
    else if !(1 <= atSeq <= |src| && ForkPoint(src[atSeq - 1].body)) then Some(BadArgument)
    else if taken != [] then Some(BadArgument)
    else Refusal(g, src)
  }

  /** Fork, the record to fork at being there. */
  method ForkAt(g: Runnable, store: Store, src: seq<Record>, fromID: string, atSeq: int, newID: string,
          edit: State -> State, charges: nat -> Charges)
    returns (res: Outcome, rec: Recorder)
    requires g.Wired() && Reachable(g, src) && fromID != newID
    requires 1 <= atSeq <= |src| && ForkPoint(src[atSeq - 1].body)
    modifies store
    ensures store.Grew(newID)
    ensures var forked := store.Log(newID);
      forked != old(store.Log(newID)) ==>
        old(store.Log(newID)) == [] && Reachable(g, forked) && ForkedFrom(src, fromID, atSeq, edit, forked)
    ensures
      var forked, e := store.Log(newID), ForkRefusal(g, src, old(store.Log(newID)), fromID, atSeq, newID);
      if e.Some? then Declined(rec, res, e, store.faults > old(store.faults)) && forked == old(store.Log(newID))
      else
        var p := ReplayLog(src[..atSeq]);
        && TotalCost(rec.steps) == Spent(g, Top(rec.steps), p.step, charges)
        && ForkTells(g, ForkLog(src, fromID, atSeq, edit), p, newID, forked, res, rec, store.faults > old(store.faults))
  {
    hide OpenNode, Steered, Runnable.Wired, Settled, Returned, Reachable, ForkedFrom, ForkLog, ReplayLog, Accounted,
      TotalCost, Spent, Top;
    NothingSpent(g, ReplayLog(src[..atSeq]).step, charges);
    rec := new Recorder([]);
    var existing, ok := store.Load(newID);
    if !ok { return Failed("", CheckpointError), rec; }
    if |existing| > 0 { return Failed("", BadArgument), rec; }
    var prefix := src[..atSeq];
    ReachablePrefix(g, src, atSeq);
    ReachableIsConsistent(g, prefix);
    HashIsKept(g, prefix);
    HashIsKept(g, src);
    var replayed := ReplayRecords(prefix);
    var p := replayed.value;
    if p.topoHash != g.topoHash && !g.allowTopo { return Failed("", TopologyChanged), rec; }
    res, rec := StartFork(g, store, src, fromID, atSeq, prefix, p, newID, edit, charges);
  }

  /** Fork. The source run is not touched. The new run is a prefix of it, then
      the fork record, and then what Recover makes of that. */
  method Fork(g: Runnable, store: Store, fromID: string, atSeq: int, newID: string, edit: State -> State,
          charges: nat -> Charges)
    returns (res: Outcome, rec: Recorder)
    requires g.Wired() && Reachable(g, store.Log(fromID))
    modifies store
    ensures store.Grew(newID) && store.Log(fromID) == old(store.Log(fromID))
    ensures var src, forked := old(store.Log(fromID)), store.Log(newID);
      forked != old(store.Log(newID)) ==>
        && old(store.Log(newID)) == [] && 1 <= atSeq <= |src| && ForkPoint(src[atSeq - 1].body)
        && Reachable(g, forked) && ForkedFrom(src, fromID, atSeq, edit, forked)
    ensures
      var src, forked := old(store.Log(fromID)), store.Log(newID);
      var e := ForkRefusal(g, src, old(store.Log(newID)), fromID, atSeq, newID);
      if e.Some? then Declined(rec, res, e, store.faults > old(store.faults)) && forked == old(store.Log(newID))
      else
        var p := ReplayLog(src[..atSeq]);
        && TotalCost(rec.steps) == Spent(g, Top(rec.steps), p.step, charges)
        && ForkTells(g, ForkLog(src, fromID, atSeq, edit), p, newID, forked, res, rec, store.faults > old(store.faults))
  {
    ghost var src := store.Log(fromID);
    hide OpenNode, Steered, Runnable.Wired, Settled, Returned, Reachable, ForkedFrom, ForkLog, ReplayLog, Accounted,
      TotalCost, Spent, Top;
    NothingSpent(g, ReplayLog(if 1 <= atSeq <= |src| then src[..atSeq] else []).step, charges);
    rec := new Recorder([]);
    if fromID == newID { return Failed("", BadArgument), rec; }
    var recs, ok := store.Load(fromID);
    if !ok { return Failed("", CheckpointError), rec; }
    if recs == [] { return Failed("", NotFound), rec; }
    forall i: nat | i < |recs| ensures recs[i].seq_ == i + 1 { SeqIsDense(g, src, i); }
    var at := FindForkPoint(recs, atSeq);
    if at < 0 { return Failed("", BadArgument), rec; }
    res, rec := ForkAt(g, store, recs, fromID, atSeq, newID, edit, charges);
  }
}
