/** The fan-out of a parallel node (graph/run.go, parallelFn): one goroutine a
    branch, on its own copy of the state, scheduled in any order. */
module FanOut {
  import opened GraphModel
  import opened RunLog
  import opened Runtime
  import opened Charging
  import opened Sizes

  /** The branches in todo have their copy of s still; of the others, if none
      failed, results holds what they computed. */
  ghost predicate Scheduled(g: Runnable, bs: seq<string>, step: nat, s: State, ans: Option<string>, results: seq<State>,
          todo: set<nat>, failed: bool)
    requires g.AreBranches(bs)
  {
    && |results| == |bs|
    && (forall i | i in todo :: i < |bs| && results[i] == g.clone(s))
    && (!failed ==> forall i: nat | i < |bs| && i !in todo ::
          g.Branch(bs[i], step, s, ans).Done? && results[i] == g.Branch(bs[i], step, s, ans).state)
  }

  /** One branch returns. */
  method Finish(g: Runnable, store: Store, bs: seq<string>, step: nat, s: State, ans: Option<string>,
          results: seq<State>, ghost todo: set<nat>, failed: bool, i: nat)
    returns (results': seq<State>, failed': bool)
    requires g.AreBranches(bs) && Scheduled(g, bs, step, s, ans, results, todo, failed) && i in todo
    modifies store`faults
    ensures Scheduled(g, bs, step, s, ans, results', todo - {i}, failed')
    ensures store.faults >= old(store.faults)
    ensures failed' && store.faults == old(store.faults) ==> failed || !g.AllDone(bs, step, s, ans)
  {
    results', failed' := results, failed;
    var res := g.nodes[bs[i]].fn(step, results[i], ans);
    assert res == g.Branch(bs[i], step, s, ans);
    if * { res, store.faults := Fail, store.faults + 1; }
    match res {
      case Done(s') => results' := results[i := s'];
      case _ => failed' := true;
    }
  }

  /** A branch's scope (graph/report.go): what its AddCost calls so far came to. */
  datatype Scope = Scope(cost: real, made: nat)

  /** made of the branch's charges have been added, each once. */
  predicate Accrued(scopes: seq<Scope>, bs: seq<string>, charges: Charges, todo: set<nat>) {
    && |scopes| == |bs|
    && forall i | i in todo ::
         && i < |bs| && scopes[i].made <= |charges(bs[i])|
         && scopes[i].cost == Sum(charges(bs[i])[..scopes[i].made])
  }

  /** AddCost in branch i. */
  method AddCost(scopes: seq<Scope>, bs: seq<string>, charges: Charges, ghost todo: set<nat>, i: nat)
    returns (scopes': seq<Scope>)
    requires Accrued(scopes, bs, charges, todo) && i in todo && scopes[i].made < |charges(bs[i])|
    ensures Accrued(scopes', bs, charges, todo)
    ensures i < |scopes| == |scopes'| == |bs|
            && scopes' == scopes[i := Scope(scopes[i].cost + charges(bs[i])[scopes[i].made], scopes[i].made + 1)]
  {
    SumUpTo(charges(bs[i]), scopes[i].made);
    scopes' := scopes[i := Scope(scopes[i].cost + charges(bs[i])[scopes[i].made], scopes[i].made + 1)];
  }

  /** How many charges are still to come. */
  function Unmade(scopes: seq<Scope>, bs: seq<string>, charges: Charges): int
    requires |scopes| == |bs|
  {
    if bs == [] then 0
    else
      var n := |bs| - 1;
      var k := |charges(bs[n])|;
      Unmade(scopes[..n], bs[..n], charges) + if scopes[n].made <= k then k - scopes[n].made else 0
  }

  lemma {:induction false} UnmadeAfter(scopes: seq<Scope>, bs: seq<string>, charges: Charges, i: nat, x: real)
    requires |scopes| == |bs| && i < |bs| && scopes[i].made < |charges(bs[i])|
    ensures 0 <= Unmade(scopes[i := Scope(x, scopes[i].made + 1)], bs, charges) == Unmade(scopes, bs, charges) - 1
    decreases |bs|
  {
    var n, after := |bs| - 1, scopes[i := Scope(x, scopes[i].made + 1)];
    if i < n {
      UnmadeAfter(scopes[..n], bs[..n], charges, i, x);
      assert after[..n] == scopes[..n][i := Scope(x, scopes[i].made + 1)];
    } else {
      UnmadeIsNat(scopes[..n], bs[..n], charges);
      assert after[..n] == scopes[..n];
    }
  }

  lemma {:induction false} UnmadeIsNat(scopes: seq<Scope>, bs: seq<string>, charges: Charges)
    requires |scopes| == |bs|
    ensures Unmade(scopes, bs, charges) >= 0
  {
    if bs != [] { UnmadeIsNat(scopes[..|bs| - 1], bs[..|bs| - 1], charges); }
  }

  /** due: what is still to be reported, branch by branch. */
  ghost predicate Outstanding(due: seq<real>, bs: seq<string>, charges: Charges, todo: set<nat>) {
    && |due| == |bs|
    && forall i: nat | i < |bs| :: due[i] == if i in todo then Sum(charges(bs[i])) else 0.0
  }

  /** Branch i, all its charges made, returns; its scope closes into the report. */
  method Return(g: Runnable, store: Store, rec: Recorder, parent: string, bs: seq<string>, step: nat, s: State,
          ans: Option<string>, charges: Charges, results: seq<State>, scopes: seq<Scope>, ghost todo: set<nat>,
          failed: bool, ghost due: seq<real>, i: nat)
    returns (results': seq<State>, failed': bool, ghost due': seq<real>)
    requires g.AreBranches(bs) && Scheduled(g, bs, step, s, ans, results, todo, failed)
    requires Accrued(scopes, bs, charges, todo) && Outstanding(due, bs, charges, todo)
    requires i in todo && scopes[i].made == |charges(bs[i])|
    modifies store`faults, rec`steps
    ensures Scheduled(g, bs, step, s, ans, results', todo - {i}, failed') && Outstanding(due', bs, charges, todo - {i})
    ensures Accrued(scopes, bs, charges, todo - {i})
    ensures store.faults >= old(store.faults)
    ensures failed' && store.faults == old(store.faults) ==> failed || !g.AllDone(bs, step, s, ans)
    ensures rec.steps == old(rec.steps) + [StepRec(bs[i], parent, Sum(charges(bs[i])), false, "")]
    ensures TotalCost(rec.steps) + Sum(due') == TotalCost(old(rec.steps)) + Sum(due)
    ensures parent != "" ==> Top(rec.steps) == Top(old(rec.steps))
  {
    results', failed' := Finish(g, store, bs, step, s, ans, results, todo, failed, i);
    hide Scheduled, Sum;
    assert charges(bs[i])[..scopes[i].made] == charges(bs[i]);
    rec.Add(StepRec(bs[i], parent, scopes[i].cost, false, ""));
    SumUpdate(due, i, 0.0);
    due' := due[i := 0.0];
  }

  /** Only branches were visited. */
  ghost predicate BranchesOnly(g: Runnable, visits: map<string, nat>, visits': map<string, nat>) {
    forall n | n !in g.branches :: Count(visits', n) == Count(visits, n)
  }

  lemma VisitsBranch(g: Runnable, v0: map<string, nat>, v: map<string, nat>, v': map<string, nat>, b: string)
    requires BranchesOnly(g, v0, v) && b in g.branches && forall m | m != b :: Count(v', m) == Count(v, m)
    ensures BranchesOnly(g, v0, v')
  {}

  /** The branches not in todo have their step in the report. */
  predicate Billed(steps: seq<StepRec>, parent: string, bs: seq<string>, charges: Charges, todo: set<nat>) {
    forall j: nat | j < |bs| && j !in todo :: StepRec(bs[j], parent, Sum(charges(bs[j])), false, "") in steps
  }

  lemma OneMoreBilled(steps: seq<StepRec>, steps': seq<StepRec>, parent: string, bs: seq<string>, charges: Charges,
          todo: set<nat>, i: nat)
    requires Billed(steps, parent, bs, charges, todo) && i < |bs|
    requires steps' == steps + [StepRec(bs[i], parent, Sum(charges(bs[i])), false, "")]
    ensures Billed(steps', parent, bs, charges, todo - {i})
  {
    assert forall s | s in steps :: s in steps';
    assert steps'[|steps|] == StepRec(bs[i], parent, Sum(charges(bs[i])), false, "");
  }

  /** Where a fan-out is: the branches in idle have not begun, those in todo have
      not returned. */
  datatype Fan = Fan(results: seq<State>, scopes: seq<Scope>, idle: set<nat>, todo: set<nat>, failed: bool)

  /** What holds between any two moves, steps0 and visits0 being the report at
      the start. */
  ghost predicate Midway(g: Runnable, parent: string, bs: seq<string>, step: nat, s: State, ans: Option<string>,
          charges: Charges, f: Fan, due: seq<real>, steps0: seq<StepRec>, steps: seq<StepRec>,
          visits0: map<string, nat>, visits: map<string, nat>)
    requires g.AreBranches(bs)
  {
    && Scheduled(g, bs, step, s, ans, f.results, f.todo, f.failed) && f.idle <= f.todo
    && Accrued(f.scopes, bs, charges, f.todo) && Outstanding(due, bs, charges, f.todo)
    && BranchesOnly(g, visits0, visits) && Billed(steps, parent, bs, charges, f.todo)
    && TotalCost(steps) + Sum(due) == TotalCost(steps0) + Sum(Bills(bs, charges))
    && (parent != "" ==> Top(steps) == Top(steps0))
  }

  /** Branch i begins, adds a cost, or returns. */
  method Move(g: Runnable, store: Store, rec: Recorder, parent: string, bs: seq<string>, step: nat, s: State,
          ans: Option<string>, charges: Charges, f: Fan, i: nat, ghost due: seq<real>, ghost steps0: seq<StepRec>,
          ghost visits0: map<string, nat>)
    returns (f': Fan, ghost due': seq<real>)
    requires g.AreBranches(bs) && i in f.todo
    requires Midway(g, parent, bs, step, s, ans, charges, f, due, steps0, rec.steps, visits0, rec.visits)
    modifies store`faults, rec`steps, rec`visits
    ensures Midway(g, parent, bs, step, s, ans, charges, f', due', steps0, rec.steps, visits0, rec.visits)
    ensures store.faults >= old(store.faults)
    ensures f'.failed && store.faults == old(store.faults) ==> f.failed || !g.AllDone(bs, step, s, ans)
    ensures || f'.todo < f.todo
            || (f'.todo == f.todo && f'.idle < f.idle)
            || (f'.todo == f.todo && f'.idle == f.idle && |f.scopes| == |f'.scopes| == |bs|
                && 0 <= Unmade(f'.scopes, bs, charges) < Unmade(f.scopes, bs, charges))
  {
    hide Top, TotalCost, Sum, Bills, Scheduled, Outstanding, Billed, Runnable.Branch, Runnable.AllDone, Count,
      BranchesOnly;
    f', due' := f, due;
    if i in f.idle {
      ghost var was := rec.visits;
      f' := f.(idle := f.idle - {i});
      var _ := rec.Visit(bs[i]);
      VisitsBranch(g, visits0, was, rec.visits, bs[i]);
    } else if f.scopes[i].made < |charges(bs[i])| {
      UnmadeAfter(f.scopes, bs, charges, i, f.scopes[i].cost + charges(bs[i])[f.scopes[i].made]);
      var scopes := AddCost(f.scopes, bs, charges, f.todo, i);
      f' := f.(scopes := scopes);
    } else {
      ghost var was := rec.steps;
      var results, failed;
      results, failed, due' := Return(g, store, rec, parent, bs, step, s, ans, charges, f.results, f.scopes, f.todo,
          f.failed, due, i);
      OneMoreBilled(was, rec.steps, parent, bs, charges, f.todo, i);
      f' := Fan(results, f.scopes, f.idle, f.todo - {i}, failed);
    }
  }

  function Begun(g: Runnable, bs: seq<string>, s: State): Fan {
    Fan(seq(|bs|, i => g.clone(s)), seq(|bs|, i => Scope(0.0, 0)), UpTo(|bs|), UpTo(|bs|), false)
  }

  lemma AllIdle(g: Runnable, parent: string, bs: seq<string>, step: nat, s: State, ans: Option<string>,
          charges: Charges, steps: seq<StepRec>, visits: map<string, nat>)
    requires g.AreBranches(bs)
    ensures Midway(g, parent, bs, step, s, ans, charges, Begun(g, bs, s), Bills(bs, charges), steps, steps,
                   visits, visits)
    ensures |Begun(g, bs, s).scopes| == |bs| && !Begun(g, bs, s).failed
  {
    hide Top, TotalCost, Count, Runnable.Branch, Accrued, Outstanding, Bills, Sum, UpTo;
    NothingAccrued(g, bs, s, charges);
    AllOutstanding(bs, charges);
  }

  lemma {:induction false} NothingAccrued(g: Runnable, bs: seq<string>, s: State, charges: Charges)
    ensures Accrued(Begun(g, bs, s).scopes, bs, charges, UpTo(|bs|))
  {
    hide UpTo;
    assert forall i: nat | i < |bs| :: charges(bs[i])[..0] == [];
  }

  lemma {:induction false} AllOutstanding(bs: seq<string>, charges: Charges)
    ensures Outstanding(Bills(bs, charges), bs, charges, UpTo(|bs|))
  {
    hide UpTo, Sum;
  }

  lemma {:induction false} AllReturned(g: Runnable, parent: string, bs: seq<string>, step: nat, s: State,
          ans: Option<string>, charges: Charges, f: Fan, due: seq<real>, steps0: seq<StepRec>, steps: seq<StepRec>,
          visits0: map<string, nat>, visits: map<string, nat>)
    requires g.AreBranches(bs) && f.todo == {}
    requires Midway(g, parent, bs, step, s, ans, charges, f, due, steps0, steps, visits0, visits)
    ensures Scheduled(g, bs, step, s, ans, f.results, {}, f.failed)
    ensures forall n | n !in g.branches :: Count(visits, n) == Count(visits0, n)
    ensures forall b | b in bs :: StepRec(b, parent, Sum(charges(b)), false, "") in steps
    ensures TotalCost(steps) == TotalCost(steps0) + Sum(Bills(bs, charges))
    ensures parent != "" ==> Top(steps) == Top(steps0)
  {
    hide Top, TotalCost, Sum, Bills, Runnable.Branch, Scheduled, Outstanding;
    NothingDue(due, bs, charges);
  }

  /** Every branch makes progress in any order, adding costs to its own scope,
      until all have returned; a scope that closes goes into the report. So the
      report gains each branch's step, which costs what that branch charged, and
      nothing else. */
  method Schedule(g: Runnable, store: Store, rec: Recorder, parent: string, bs: seq<string>, step: nat, s: State,
          ans: Option<string>, charges: Charges)
    returns (results: seq<State>, failed: bool)
    requires g.AreBranches(bs)
    modifies store`faults, rec`steps, rec`visits
    ensures Scheduled(g, bs, step, s, ans, results, {}, failed)
    ensures store.faults >= old(store.faults)
    ensures failed && store.faults == old(store.faults) ==> !g.AllDone(bs, step, s, ans)
    ensures forall n | n !in g.branches :: Count(rec.visits, n) == Count(old(rec.visits), n)
    ensures forall b | b in bs :: StepRec(b, parent, Sum(charges(b)), false, "") in rec.steps
    ensures TotalCost(rec.steps) == TotalCost(old(rec.steps)) + Sum(Bills(bs, charges))
    ensures parent != "" ==> Top(rec.steps) == Top(old(rec.steps))
  {
    var f := Begun(g, bs, s);
    ghost var due := Bills(bs, charges);
    AllIdle(g, parent, bs, step, s, ans, charges, rec.steps, rec.visits);
    hide Top, TotalCost, Sum, Bills, Scheduled, Midway, Unmade, UpTo, Runnable.AreBranches, Runnable.AllDone, Count;
    while f.todo != {}
      invariant Midway(g, parent, bs, step, s, ans, charges, f, due, old(rec.steps), rec.steps, old(rec.visits),
          rec.visits)
      invariant store.faults >= old(store.faults) && |f.scopes| == |bs|
      invariant f.failed && store.faults == old(store.faults) ==> !g.AllDone(bs, step, s, ans)
      decreases f.todo, f.idle, Unmade(f.scopes, bs, charges)
    {
      var i :| i in f.todo;
      f, due := Move(g, store, rec, parent, bs, step, s, ans, charges, f, i, due, old(rec.steps), old(rec.visits));
    }
    AllReturned(g, parent, bs, step, s, ans, charges, f, due, old(rec.steps), rec.steps, old(rec.visits), rec.visits);
    results, failed := f.results, f.failed;
  }

  lemma {:induction false} NothingDue(due: seq<real>, bs: seq<string>, charges: Charges)
    requires Outstanding(due, bs, charges, {})
    ensures Sum(due) == 0.0
  {
    SumZero(due);
  }

  /** parallelFn. Whatever the schedule, the outcome is EvalParallel's, unless a
      branch failed for reasons of its own; merge is called only if no branch
      failed; and the report grows by exactly what the branches charged. */
  method Run(g: Runnable, store: Store, rec: Recorder, name: string, step: nat, s: State, ans: Option<string>,
          charges: Charges)
    returns (out: NodeOut)
    requires name in g.nodes && g.nodes[name].Parallel? && g.AreBranches(g.nodes[name].branches)
    modifies store`faults, rec`steps, rec`visits
    ensures out.Fail? || out == g.EvalParallel(name, step, s, ans)
    ensures !out.Ask?
    ensures out.Done? ==>
      var bs := g.nodes[name].branches;
      exists rs: seq<State> | |rs| == |bs| ::
        && (forall i | 0 <= i < |rs| :: g.nodes[bs[i]].fn(step, g.clone(s), ans) == Done(rs[i]))
        && out == g.nodes[name].merge(s, rs)
    ensures out.Fail? && store.faults == old(store.faults) ==> g.EvalParallel(name, step, s, ans).Fail?
    ensures !g.AllDone(g.nodes[name].branches, step, s, ans) ==> out.Fail?
    ensures store.faults >= old(store.faults)
    ensures forall n | n !in g.branches :: Count(rec.visits, n) == Count(old(rec.visits), n)
    ensures TotalCost(rec.steps) == TotalCost(old(rec.steps)) + Sum(Bills(g.nodes[name].branches, charges))
    ensures name != "" ==> Top(rec.steps) == Top(old(rec.steps))
  {
    var bs := g.nodes[name].branches;
    var results, failed := Schedule(g, store, rec, name, bs, step, s, ans, charges);
    if failed { return Fail; }
    assert g.AllDone(bs, step, s, ans);
    assert results == g.Results(bs, step, s, ans);
    assert forall i | 0 <= i < |results| :: g.nodes[bs[i]].fn(step, g.clone(s), ans) == Done(results[i]);
    out := g.nodes[name].merge(s, results);
    if out.Ask? { out := Fail; }
  }
}
