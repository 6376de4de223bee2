/** The second driver of a graph: a Temporal workflow that walks it one
    Runnable.Step at a time (graph/step.go, temporal/temporal.go). The workflow
    history is its log; no checkpoint store is written. */
module Temporal {
  import opened GraphModel
  import opened RunLog
  import opened Runtime
  import opened Ideal
  import opened Charging
  import FanOut

  /** StepResult, with the attempt number that the node's StepInfo carried. */
  datatype StepResult = StepResult(state: State, next: string, paused: bool, question: string, attempt: nat)

  /** Runnable.Step: one node and its route. None is an error. */
  method StepNode(g: Runnable, env: Store, node: string, s: State, step: int, attempt: int, answer: Option<string>)
    returns (res: Option<StepResult>)
    requires g.Wired()
    modifies env`faults
    ensures env.faults >= old(env.faults)
    ensures node == START ==>
      res == match g.Next(START, s) case None => None case Some(t) => Some(StepResult(s, t, false, "", 0))
    ensures res.Some? && !res.value.paused ==>
      if node in g.statics then res.value.next == g.statics[node]
      else
        && node in g.cond && g.cond[node].route(res.value.state) == Some(res.value.next)
        && res.value.next in g.cond[node].targets
    ensures res.None? && env.faults == old(env.faults) ==>
      || (node != START && !g.Steppable(node))
      || (node != START && g.Steppable(node) && g.Eval(node, if step < 1 then 1 else step, s, answer).Fail?)
      || (node in g.cond && node !in g.statics &&
          exists s': State ::
            && (node == START ==> s' == s)
            && (node != START ==>
                  g.Steppable(node) && g.Eval(node, if step < 1 then 1 else step, s, answer) == Done(s'))
            && match g.cond[node].route(s')
               case None => true
               case Some(t) => t !in g.cond[node].targets)
    ensures node != START && !g.Steppable(node) ==> res.None?
    ensures g.Steppable(node) ==>
      var k := if step < 1 then 1 else step;
      match g.Eval(node, k, s, answer)
      case Fail => res.None?
      case Ask(s', q) =>
        res == Some(StepResult(s', "", true, q, if attempt < 1 then 1 else attempt))
        || (res.None? && env.faults > old(env.faults))
      case Done(s') =>
        match g.Next(node, s')
        case None => res.None?
        case Some(t) =>
          res == Some(StepResult(s', t, false, "", if attempt < 1 then 1 else attempt))
          || (res.None? && env.faults > old(env.faults))
  {
    if node == START {
      var first := g.Next(START, s);
      if first.Some? { g.NextIs(START, s, first.value); }
      return if first.Some? then Some(StepResult(s, first.value, false, "", 0)) else None;
    }
    if !g.Steppable(node) { return None; }
    var k := if step < 1 then 1 else step;
    var rec := new Recorder([]);
    rec.SeedVisits([]);
    if attempt > 1 { rec.visits := rec.visits[node := attempt - 1]; }
    var visit := rec.Visit(node);
    var out := Attempt(g, env, rec, node, k, s, answer);
    match out {
      case Fail => res := None;
      case Ask(s', q) => res := Some(StepResult(s', "", true, q, visit));
      case Done(s') =>
        var next := g.Next(node, s');
        if next.Some? { g.NextIs(node, s', next.value); }
        res := if next.Some? then Some(StepResult(s', next.value, false, "", visit)) else None;
    }
  }

  method Attempt(g: Runnable, env: Store, rec: Recorder, node: string, step: nat, s: State, answer: Option<string>)
    returns (out: NodeOut)
    requires g.Wired() && g.Steppable(node)
    modifies env`faults, rec`steps, rec`visits
    ensures env.faults >= old(env.faults)
    ensures out == g.Eval(node, step, s, answer) || (out.Fail? && env.faults > old(env.faults))
  {
    if g.nodes[node].Func? {
      out := g.nodes[node].fn(step, s, answer);
      if * { out, env.faults := Fail, env.faults + 1; }
    } else {
      assert g.FanOutWired(node);
      var charges: Charges := *; // Step's report is its own, see StepResult
      out := FanOut.Run(g, env, rec, node, step, s, answer, charges);
    }
  }

  /** How a workflow execution ends, or stands: waiting is what QueryPending
      answers. */
  datatype End = Completed | MaxStepsExceeded | Waiting(node: string, step: nat, question: string) | ActivityFailed

  /** The reference step, with the answer that it will find. */
  lemma StepWithAnswer(g: Runnable, answers: seq<string>, c: Config, ans: Option<string>)
    requires g.Wired() && g.Steppable(c.next) && c.step < g.maxSteps
    requires c.asked.Some? <==> ans.Some?
    requires ans.Some? ==> |c.used| < |answers| && answers[|c.used|] == ans.value
    ensures Ideal.Step(g, answers, c) ==
      match g.Eval(c.next, c.step + 1, c.state, ans)
      case Fail => c
      case Ask(s, q) => c.Paused(s, q, AsSeq(ans))
      case Done(s) => if g.Next(c.next, s).None? then c else c.Committed(s, g.Next(c.next, s).value, AsSeq(ans))
  {
    hide Runnable.Wired, Runnable.Eval, Runnable.Next;
    if ans.None? { assert c.used + [] == c.used; }
  }

  /** One workflow execution. answers is the signal channel: what humans send,
      in order, early or late. */
  class Workflow {
    const g: Runnable
    const env: Store
    const answers: seq<string>
    var received: nat
    var state: State
    var path: seq<string>
    var steps: seq<Exec>
    var visits: map<string, nat>
    var cur: string
    var step: nat

    constructor (g: Runnable, env: Store, answers: seq<string>, init: State)
      ensures this.g == g && this.env == env && this.answers == answers && state == init
      ensures received == 0 && path == [] && steps == [] && visits == map[] && step == 0
    {
      this.g, this.env, this.answers, this.state := g, env, answers, init;
      received, path, steps, visits, cur, step := 0, [], [], map[], START, 0;
    }

    /** The workflow's variables are configuration c of the reference run, with
        the answers in given already received for its next execution. */
    ghost predicate At(c: Config, given: nat)
      reads this
    {
      && c.state == state && c.next == cur && c.path == path && c.execs == steps
      && Counts(visits, path)
      && received <= |answers| && given <= received && c.used == answers[..received - given]
    }

    ghost predicate Reaches(c0: Config, c: Config)
      requires g.Wired()
    {
      exists n: nat :: c == Iterate(g, answers, c0, n)
    }

    lemma ReachesStep(c0: Config, c: Config)
      requires g.Wired() && Reaches(c0, c)
      ensures Reaches(c0, Ideal.Step(g, answers, c))
    {
      var n: nat :| c == Iterate(g, answers, c0, n);
      assert Ideal.Step(g, answers, c) == Iterate(g, answers, c0, n + 1);
    }

    lemma ReachesSelf(c: Config)
      requires g.Wired()
      ensures Reaches(c, c)
    {
      assert c == Iterate(g, answers, c, 0);
    }

    lemma WaitingHalts(c: Config)
      requires g.Wired() && c.asked.Some? && |c.used| >= |answers|
      ensures Halted(g, answers, c)
    {}

    /** One activity: the node's attempt, counted and recorded. */
    method Activity(answer: Option<string>, ghost c: Config) returns (out: Option<StepResult>)
      requires g.Wired() && g.Steppable(cur) && step == c.step + 1 <= g.maxSteps
      requires At(c, if answer.Some? then 1 else 0)
      requires c.asked.Some? <==> answer.Some?
      requires answer.Some? ==> answer == Some(answers[received - 1])
      modifies this`visits, this`path, this`state, this`steps, env`faults
      ensures env.faults >= old(env.faults)
      ensures out.None? ==> env.faults > old(env.faults) || Halted(g, answers, c)
      ensures out.None? ==> c.state == state && c.execs == steps && path == c.path + [cur]
      ensures out.Some? ==> var c' := Ideal.Step(g, answers, c);
        && c'.state == state == out.value.state && c'.path == path && c'.execs == steps
        && c'.used == answers[..received]
        && Counts(visits, path)
        && (c'.asked.Some? <==> out.value.paused)
        && (out.value.paused ==> c'.asked == Some(out.value.question) && c'.step == c.step && c'.next == cur)
        && (!out.value.paused ==>
              c'.step == step && c'.next == out.value.next && (c'.next == END || g.Steppable(c'.next)))
    {
      hide Runnable.Wired, Runnable.Eval, Runnable.Next, Ideal.Step, Counts, Count;
      assert c.used + AsSeq(answer) == answers[..received];
      StepWithAnswer(g, answers, c, answer);
      CountsVisit(visits, path, cur);
      visits := visits[cur := Count(visits, cur) + 1];
      path := path + [cur];
      out := StepNode(g, env, cur, state, step, visits[cur], answer);
      if out.None? { return; }
      state := out.value.state;
      steps := steps + [Exec(cur, step, out.value.attempt)];
      if !out.value.paused { g.NextStaysWired(cur, state); }
    }

    /** The workflow's loop body: run the node, and again with each answer until
        it asks no more. */
    method Turn(ghost c0: Config, ghost c: Config) returns (stop: Option<End>, ghost c': Config)
      requires g.Wired() && g.Steppable(cur) && step == c.step + 1 <= g.maxSteps && c.asked.None?
      requires At(c, 0) && Reaches(c0, c)
      modifies this`visits, this`path, this`state, this`steps, this`received, this`cur, env`faults
      ensures env.faults >= old(env.faults)
      ensures Reaches(c0, c')
      ensures stop.None? ==> At(c', 0) && c'.asked.None? && c'.step == step && (cur == END || g.Steppable(cur))
      ensures stop.Some? && (stop.value.Waiting? || env.faults == old(env.faults)) ==> Halted(g, answers, c')
      ensures stop.Some? ==>
        (stop.value.ActivityFailed? || stop.value.Waiting?) && c'.next == cur == old(cur) && c'.step < g.maxSteps
      ensures stop.Some? && stop.value.ActivityFailed? ==>
        && (c'.asked.Some? ==> |c'.used| < |answers|)
        && c'.state == state && c'.execs == steps && path == c'.path + [cur]
      ensures stop.Some? && stop.value.Waiting? ==>
        At(c', 0) && received == |answers| && c'.asked == Some(stop.value.question) && stop.value.node == cur
        && stop.value.step == c'.step + 1
    {
      hide Runnable.Wired, Ideal.Step, Reaches, Halted;
      var answer: Option<string> := None;
      c' := c;
      while true
        invariant env.faults >= old(env.faults)
        invariant cur == old(cur) && Reaches(c0, c') && At(c', if answer.Some? then 1 else 0)
        invariant c'.step + 1 == step && (c'.asked.Some? <==> answer.Some?)
        invariant answer.Some? ==> answer == Some(answers[received - 1])
        decreases |answers| - received
      {
        var out := Activity(answer, c');
        if out.None? { return Some(ActivityFailed), c'; }
        ReachesStep(c0, c');
        c' := Ideal.Step(g, answers, c');
        if !out.value.paused {
          cur := out.value.next;
          return None, c';
        }
        if received == |answers| {
          WaitingHalts(c');
          return Some(Waiting(cur, step, out.value.question)), c';
        }
        answer, received := Some(answers[received]), received + 1;
      }
    }

    /** The workflow. Unless it is ended by an activity that failed for reasons
        of its own, it stops exactly where the reference run does on the same
        answers: same state, path, executions and attempt numbers, the same
        question pending, the same node before which the steps ran out. If it is,
        it stopped on the way there. */
    method Run() returns (end: End, ghost c: Config)
      requires g.Wired() && received == 0 && path == [] && steps == [] && visits == map[] && step == 0
      modifies this, env`faults
      ensures g.Next(START, old(state)).None? ==> end.ActivityFailed?
      ensures g.Next(START, old(state)).Some? ==>
        && Reaches(Fresh(old(state), g.Next(START, old(state)).GetOr(END), 0), c)
        && c.state == state && c.execs == steps && c.next == cur
        && path == if end.ActivityFailed? then c.path + [cur] else c.path
      ensures g.Next(START, old(state)).Some? && (end.ActivityFailed? ==> env.faults == old(env.faults)) ==>
        var c0 := Fresh(old(state), g.Next(START, old(state)).GetOr(END), 0);
        && c == Iterate(g, answers, c0, g.maxSteps + 2 * |answers| + 1) && Halted(g, answers, c)
        && (end.Completed? <==> c.next == END)
        && (end.Waiting? ==> c.next != END && c.asked.Some? && |c.used| == |answers|)
        && (end.MaxStepsExceeded? ==> c.next != END && c.asked.None? && c.step == g.maxSteps)
        && (end.ActivityFailed? ==> c.next != END && c.step < g.maxSteps && (c.asked.Some? ==> |c.used| < |answers|))
        && (end.Waiting? ==> end == Waiting(c.next, c.step + 1, c.asked.GetOr("")))
    {
      hide Runnable.Wired, Ideal.Step, Reaches, Halted, Iterate;
      var first := StepNode(g, env, START, state, 0, 0, None);
      c := Fresh(state, END, 0);
      if first.None? { return ActivityFailed, c; }
      g.NextStaysWired(START, state);
      cur := first.value.next;
      ghost var c0 := Fresh(state, cur, 0);
      c := c0;
      ReachesSelf(c0);
      while cur != END
        invariant env.faults >= old(env.faults)
        invariant Reaches(c0, c) && At(c, 0) && c.asked.None? && c.step == step <= g.maxSteps
        invariant cur == END || g.Steppable(cur)
        decreases g.maxSteps - step
      {
        if step >= g.maxSteps {
          LimitReached(c0, c);
          return MaxStepsExceeded, c;
        }
        step := step + 1;
        g.EndIsNoNode();
        var stop;
        stop, c := Turn(c0, c);
        if stop.Some? {
          if Halted(g, answers, c) { LimitReached(c0, c); }
          return stop.value, c;
        }
      }
      LimitReached(c0, c);
      end := Completed;
    }

    lemma {:induction false} LimitReached(c0: Config, c: Config)
      requires g.Wired() && Reaches(c0, c) && c0.step == 0 && c0.used == []
      requires Halted(g, answers, c) || c.next == END || c.step >= g.maxSteps
      ensures Halted(g, answers, c)
      ensures c == Iterate(g, answers, c0, g.maxSteps + 2 * |answers| + 1)
    {
      var n: nat :| c == Iterate(g, answers, c0, n);
      HaltIsLimit(g, answers, c0, n, g.maxSteps + 2 * |answers| + 1);
    }
  }

  /** DRIVERS AGREE. A logged run, whatever crashed in it, that got as far as
      the answers take it records the configuration in which the workflow ends
      on the same state and answers. */
  lemma {:induction false} DriversAgree(g: Runnable, log: seq<Record>, answers: seq<string>)
    requires g.Wired() && Reachable(g, log) && log != [] && NoForkSince(log, 1)
    requires FromStart(g, log[0].body) && !Imported(log)
    requires Abs(log).used <= answers && Halted(g, answers, Abs(log))
    ensures Abs(log) == Iterate(g, answers, Fresh(log[0].body.state, log[0].body.next, 0),
        g.maxSteps + 2 * |answers| + 1)
  {
    hide Runnable.Wired, Reachable, ReplayLog, Abs, Halted, Iterate;
    FirstIsRunStart(g, log);
    LogRefinesReference(g, log, 1, answers);
    var n: nat :| Abs(log) == Iterate(g, answers, Abs(log[..1]), n);
    HaltIsLimit(g, answers, Abs(log[..1]), n, g.maxSteps + 2 * |answers| + 1);
  }

  lemma {:induction false} FirstIsRunStart(g: Runnable, log: seq<Record>)
    requires g.Wired() && Reachable(g, log) && log != [] && FromStart(g, log[0].body)
    ensures Abs(log[..1]) == Fresh(log[0].body.state, log[0].body.next, 0)
  {
    hide Runnable.Wired;
    ReachablePrefix(g, log, 0);
    assert log[..0] == [] && log[..1] == [] + [log[0]];
    AbsSnoc([], log[0]);
  }
}
