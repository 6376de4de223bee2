/** The reference run: nodes executed one after another by one process that
    never stops, each question answered by the next of a list of answers. There
    is no log in it. The theorems below say that every reachable log, whatever
    crashes, failed attempts and recoveries it went through, records exactly
    such a run. */
module Ideal {
  import opened GraphModel
  import opened RunLog

  datatype Commit = Commit(node: string, step: nat, attempt: nat, state: State, next: string)

  datatype Exec = Exec(node: string, step: nat, attempt: nat)

  /** Where a run is. asked: the question next is paused on; used: the answers
      that executions have been given so far. */
  datatype Config = Config(
    state: State,
    next: string,
    step: nat,
    path: seq<string>,
    execs: seq<Exec>,
    commits: seq<Commit>,
    asked: Option<string>,
    used: seq<string>)
  {
    function Attempt(): nat { multiset(path)[next] + 1 }

    function Paused(s: State, q: string, ans: seq<string>): Config {
      Config(s, next, step, path + [next], execs + [Exec(next, step + 1, Attempt())], commits, Some(q), used + ans)
    }

    function Committed(s: State, nx: string, ans: seq<string>): Config {
      Config(s, nx, step + 1, path + [next], execs + [Exec(next, step + 1, Attempt())],
             commits + [Commit(next, step + 1, Attempt(), s, nx)], None, used + ans)
    }
  }

  function Fresh(s: State, first: string, step: nat): Config {
    Config(s, first, step, [], [], [], None, [])
  }

  // ----- the reference run -----

  /** One execution of the current node; c itself when there is none to make:
      the run is over, waits for an answer that is not there, is out of steps,
      fails, or has no valid route. */
  ghost function Step(g: Runnable, answers: seq<string>, c: Config): Config
    requires g.Wired()
  {
    if !g.Steppable(c.next) || c.step >= g.maxSteps || (c.asked.Some? && |answers| <= |c.used|) then c
    else
      var ans := if c.asked.Some? then [answers[|c.used|]] else [];
      match g.Eval(c.next, c.step + 1, c.state, if c.asked.Some? then Some(ans[0]) else None)
      case Fail => c
      case Ask(s, q) => c.Paused(s, q, ans)
      case Done(s) =>
        match g.Next(c.next, s)
        case None => c
        case Some(nx) => c.Committed(s, nx, ans)
  }

  ghost function Iterate(g: Runnable, answers: seq<string>, c: Config, n: nat): Config
    requires g.Wired()
  {
    if n == 0 then c else Step(g, answers, Iterate(g, answers, c, n - 1))
  }

  ghost predicate Halted(g: Runnable, answers: seq<string>, c: Config)
    requires g.Wired()
  {
    Step(g, answers, c) == c
  }

  lemma {:induction false} HaltedStays(g: Runnable, answers: seq<string>, c: Config, n: nat, m: nat)
    requires g.Wired() && n <= m
    requires Halted(g, answers, Iterate(g, answers, c, n))
    ensures Iterate(g, answers, c, m) == Iterate(g, answers, c, n)
  {
    if n < m { HaltedStays(g, answers, c, n, m - 1); }
  }

  lemma {:induction false} HaltIsUnique(g: Runnable, answers: seq<string>, c: Config, n: nat, m: nat)
    requires g.Wired()
    requires Halted(g, answers, Iterate(g, answers, c, n)) && Halted(g, answers, Iterate(g, answers, c, m))
    ensures Iterate(g, answers, c, n) == Iterate(g, answers, c, m)
  {
    if n <= m { HaltedStays(g, answers, c, n, m); } else { HaltedStays(g, answers, c, m, n); }
  }

  /** What is left to do: executions that may still commit, answers that may
      still be used, and one question that may still be asked. */
  function Budget(g: Runnable, answers: seq<string>, c: Config): int {
    (g.maxSteps - c.step) + 2 * (|answers| - |c.used|) + (if c.asked.None? then 1 else 0)
  }

  lemma StepSpendsBudget(g: Runnable, answers: seq<string>, c: Config)
    requires g.Wired() && c.step <= g.maxSteps && |c.used| <= |answers|
    ensures var c' := Step(g, answers, c);
      c'.step <= g.maxSteps && |c'.used| <= |answers| &&
      (!Halted(g, answers, c) ==> Budget(g, answers, c') < Budget(g, answers, c))
  {}

  /** The reference run always halts: a loop of the graph is cut by maxSteps,
      and a node cannot ask more often than it is answered. */
  lemma {:induction false} ReferenceHalts(g: Runnable, answers: seq<string>, c: Config, n: nat)
    requires g.Wired() && |c.used| <= |answers|
    requires n >= g.maxSteps + 2 * |answers| + 1
    ensures Halted(g, answers, Iterate(g, answers, c, n))
  {
    if c.step > g.maxSteps {
      assert Iterate(g, answers, c, 0) == c;
      HaltedStays(g, answers, c, 0, n);
      return;
    }
    HaltsWithin(g, answers, c, Budget(g, answers, c));
    var k :| 0 <= k <= Budget(g, answers, c) && Halted(g, answers, Iterate(g, answers, c, k));
    HaltedStays(g, answers, c, k, n);
  }

  lemma {:induction false} HaltIsLimit(g: Runnable, answers: seq<string>, c: Config, n: nat, m: nat)
    requires g.Wired() && |c.used| <= |answers|
    requires Halted(g, answers, Iterate(g, answers, c, n)) && m == g.maxSteps + 2 * |answers| + 1
    ensures Iterate(g, answers, c, n) == Iterate(g, answers, c, m)
  {
    ReferenceHalts(g, answers, c, m);
    HaltIsUnique(g, answers, c, n, m);
  }

  lemma {:induction false} HaltsWithin(g: Runnable, answers: seq<string>, c: Config, b: int)
    requires g.Wired() && c.step <= g.maxSteps && |c.used| <= |answers|
    requires Budget(g, answers, c) <= b
    ensures exists k | 0 <= k <= b :: Halted(g, answers, Iterate(g, answers, c, k))
    decreases b
  {
    assert Iterate(g, answers, c, 0) == c;
    if !Halted(g, answers, c) {
      StepSpendsBudget(g, answers, c);
      var c' := Step(g, answers, c);
      HaltsWithin(g, answers, c', b - 1);
      var k :| 0 <= k <= b - 1 && Halted(g, answers, Iterate(g, answers, c', k));
      IterateShift(g, answers, c, k);
      assert Halted(g, answers, Iterate(g, answers, c, k + 1));
    }
  }

  lemma {:induction false} IterateShift(g: Runnable, answers: seq<string>, c: Config, k: nat)
    requires g.Wired()
    ensures Iterate(g, answers, Step(g, answers, c), k) == Iterate(g, answers, c, k + 1)
  {
    assert Iterate(g, answers, c, 0) == c;
    if k > 0 { IterateShift(g, answers, c, k - 1); }
  }

  // ----- what a log says about the run -----

  function AsSeq(o: Option<string>): seq<string> {
    if o.Some? then [o.value] else []
  }

  /** The configuration a log records: what replayLog restores, and the history
      of executions, commits and used answers that got there. */
  function Abs(log: seq<Record>): Config {
    if log == [] then Fresh("", "", 0)
    else
      var prev := log[..|log| - 1];
      Advance(Abs(prev), AsSeq(ReplayLog(prev).answer), log[|log| - 1].body)
  }

  /** What one record adds, ans being the answer given and not used so far.
      Attempts are counted in the path; see LogShape.AttemptsAreCounted. */
  function Advance(c: Config, ans: seq<string>, b: Body): Config {
    match b
    case RunStart(_, s, nx, k) => Fresh(s, nx, k)
    case NodeCommit(n, k, _, s, nx, _) =>
      var att := multiset(c.path)[n] + 1;
      Config(s, nx, k, c.path + [n], c.execs + [Exec(n, k, att)], c.commits + [Commit(n, k, att, s, nx)],
             None, c.used + ans)
    case Interrupt(n, k, q, s, _) =>
      var att := multiset(c.path)[n] + 1;
      Config(s, c.next, c.step, c.path + [n], c.execs + [Exec(n, k, att)], c.commits, Some(q), c.used + ans)
    case Fork(_, _, s, nx, k) => c.(state := s, next := nx, step := k, asked := None)
    case _ => c
  }

  lemma {:induction false} AbsSnoc(log: seq<Record>, r: Record)
    ensures Abs(log + [r]) == Advance(Abs(log), AsSeq(ReplayLog(log).answer), r.body)
  {
    assert (log + [r])[..|log|] == log;
  }

  predicate Restores(p: Replay, c: Config) {
    && c.state == p.state && c.next == p.next && c.step == p.step && c.path == p.path
    && (c.asked.Some? <==> p.pending.Some?)
    && (c.asked.Some? ==> c.asked.value == p.pending.value.question)
  }

  lemma RestoresAfter(g: Runnable, p: Replay, c: Config, t: Tail, r: Record)
    requires g.Wired() && Consistent(g, p) && Restores(p, c) && LegalAfter(g, p, t, r.body)
    ensures Restores(Apply(p, r), Advance(c, AsSeq(p.answer), r.body))
  {
    match r.body
    case NodeCommit(_, _, _, _, _, _) =>
    case Interrupt(_, _, _, _, _) =>
    case _ =>
  }

  /** replayLog restores the configuration of the run: state, next node, step,
      path and the pending question. */
  lemma {:induction false} ReplayRestores(g: Runnable, log: seq<Record>)
    requires g.Wired() && Reachable(g, log)
    ensures log != [] ==> Restores(ReplayLog(log), Abs(log))
  {
    if log != [] {
      var prev, r := log[..|log| - 1], log[|log| - 1];
      ReplayRestores(g, prev);
      ReachableIsConsistent(g, log);
      ReachableIsConsistent(g, prev);
      if prev != [] {
        RestoresAfter(g, ReplayLog(prev), Abs(prev), TailOf(prev), r);
      }
    }
  }

  lemma AdvanceIsStep(g: Runnable, p: Replay, c: Config, t: Tail, b: Body, answers: seq<string>)
    requires g.Wired() && Consistent(g, p) && Restores(p, c) && LegalAfter(g, p, t, b)
    requires !b.Fork? && !(b.Interrupt? && t.last.RunStart?)
    requires Advance(c, AsSeq(p.answer), b).used <= answers
    ensures c.used <= answers
    ensures Advance(c, AsSeq(p.answer), b) == if b.NodeCommit? || b.Interrupt? then Step(g, answers, c) else c
  {
    if b.NodeCommit? || b.Interrupt? {
      var used := c.used + AsSeq(p.answer);
      assert used <= answers;
      assert c.used <= used;
      if p.answer.Some? {
        assert used[|c.used|] == p.answer.value;
      } else {
        assert used == c.used;
      }
    }
  }

  /** A run_start is a log's first record, and no other. */
  lemma {:induction false} StartIsFirst(g: Runnable, log: seq<Record>)
    requires g.Wired() && Reachable(g, log) && log != []
    ensures log[|log| - 1].body.RunStart? <==> |log| == 1
  {
    hide Runnable.Eval, Runnable.Next;
    assert Legal(g, log[..|log| - 1], log[|log| - 1]);
  }

  /** One more record changes nothing, but a commit, an interrupt or a fork;
      and a commit or an interrupt of the run proper is one step of the
      reference run. */
  lemma {:induction false} RecordIsStep(g: Runnable, log: seq<Record>, r: Record, answers: seq<string>)
    requires g.Wired() && Reachable(g, log + [r]) && log != [] && Origin(log + [r]) <= |log| && !r.body.Fork?
    requires Abs(log + [r]).used <= answers
    ensures Abs(log).used <= answers
    ensures Abs(log + [r]) == if r.body.NodeCommit? || r.body.Interrupt? then Step(g, answers, Abs(log)) else Abs(log)
  {
    ReachablePrefix(g, log + [r], |log|);
    assert (log + [r])[..|log|] == log;
    AbsSnoc(log, r);
    StartIsFirst(g, log);
    ReplayRestores(g, log);
    ReachableIsConsistent(g, log);
    AdvanceIsStep(g, ReplayLog(log), Abs(log), TailOf(log), r.body, answers);
  }

  predicate NoForkSince(log: seq<Record>, i: nat)
    requires i <= |log|
  {
    forall j | i <= j < |log| :: !log[j].body.Fork?
  }

  /** THE REFINEMENT. Between any two points of a reachable log, whatever
      crashed, failed, was recovered or resumed in between, the configuration
      moves only by steps of the reference run on the same answers. An imported
      run refines it from the imported checkpoint on. */
  lemma {:induction false} LogRefinesReference(g: Runnable, log: seq<Record>, i: nat, answers: seq<string>)
    requires g.Wired() && Reachable(g, log) && Origin(log) <= i <= |log| && NoForkSince(log, i)
    requires Abs(log).used <= answers
    ensures Abs(log[..i]).used <= answers
    ensures exists n: nat :: Abs(log) == Iterate(g, answers, Abs(log[..i]), n)
    decreases |log|
  {
    hide Runnable.Wired, Abs, Step, Legal;
    if i == |log| {
      assert log[..i] == log;
      assert Abs(log) == Iterate(g, answers, Abs(log[..i]), 0);
    } else {
      var prev, r := log[..|log| - 1], log[|log| - 1];
      assert log == prev + [r] && Origin(prev) <= Origin(log);
      RecordIsStep(g, prev, r, answers);
      LogRefinesReference(g, prev, i, answers);
      assert prev[..i] == log[..i];
      var n: nat :| Abs(prev) == Iterate(g, answers, Abs(log[..i]), n);
      assert Abs(log) == Iterate(g, answers, Abs(log[..i]), n) || Abs(log) == Iterate(g, answers, Abs(log[..i]), n + 1);
    }
  }

  /** From c, where it was after i records, the run that log records went to d,
      as far as answers take it. */
  ghost predicate Went(g: Runnable, log: seq<Record>, i: nat, c: Config, answers: seq<string>, d: Config)
    requires g.Wired()
  {
    && Reachable(g, log) && Origin(log) <= i <= |log| && NoForkSince(log, i)
    && Abs(log[..i]) == c && Abs(log) == d
    && d.used <= answers && Halted(g, answers, d)
  }

  /** CRASH EQUIVALENCE. Take two logs that are at the same configuration c at
      some point (after the same run_start, say), one perhaps riddled with
      crashes and recoveries and the other not, and let both go as far as the
      same answers take them. Then they agree on state, path, commits and
      executions. */
  lemma {:induction false} CrashEquivalence(g: Runnable, c: Config, answers: seq<string>, log1: seq<Record>, i1: nat,
          d1: Config, log2: seq<Record>, i2: nat, d2: Config)
    requires g.Wired() && Went(g, log1, i1, c, answers, d1) && Went(g, log2, i2, c, answers, d2)
    ensures d1 == d2
  {
    hide Runnable.Wired, Reachable, Abs, Step;
    LogRefinesReference(g, log1, i1, answers);
    LogRefinesReference(g, log2, i2, answers);
    var n: nat :| d1 == Iterate(g, answers, c, n);
    var m: nat :| d2 == Iterate(g, answers, c, m);
    HaltIsUnique(g, answers, c, n, m);
  }

  /** A finished log holds the final configuration of the reference run, so any
      two finished runs from the same start with the same answers agree. */
  lemma {:induction false} FinishedIsReferenceResult(g: Runnable, log: seq<Record>, answers: seq<string>)
    requires g.Wired() && Reachable(g, log) && Origin(log) <= |log| && NoForkSince(log, Origin(log))
    requires ReplayLog(log).Finished() && Abs(log).used <= answers
    ensures Abs(log) == Iterate(g, answers, Abs(log[..Origin(log)]), g.maxSteps + 2 * |answers| + 1)
    ensures Abs(log).next == END
  {
    hide Runnable.Wired, Reachable, Abs, Step;
    var i := Origin(log);
    FinishedIsHalted(g, log, answers);
    LogRefinesReference(g, log, i, answers);
    var n: nat :| Abs(log) == Iterate(g, answers, Abs(log[..i]), n);
    HaltIsLimit(g, answers, Abs(log[..i]), n, g.maxSteps + 2 * |answers| + 1);
  }

  lemma {:induction false} FinishedIsHalted(g: Runnable, log: seq<Record>, answers: seq<string>)
    requires g.Wired() && Reachable(g, log) && log != [] && ReplayLog(log).Finished()
    ensures Abs(log).next == END && Halted(g, answers, Abs(log))
  {
    ReachableIsConsistent(g, log);
    ReplayRestores(g, log);
  }

  // ----- whose answers -----

  /** The answers that executions were given, and the one that the next
      execution will be given. */
  function Heard(log: seq<Record>): seq<string> {
    Abs(log).used + AsSeq(ReplayLog(log).answer)
  }

  lemma HeardAfter(g: Runnable, p: Replay, c: Config, t: Tail, r: Record)
    requires g.Wired() && LegalAfter(g, p, t, r.body) && !r.body.Fork?
    ensures var heard := Advance(c, AsSeq(p.answer), r.body).used + AsSeq(Apply(p, r).answer);
      && (!r.body.Resume? ==> heard == c.used + AsSeq(p.answer))
      && (r.body.Resume? && p.Waiting() ==> heard == c.used + AsSeq(p.answer) + [r.body.answer])
  {
    hide Runnable.Wired;
    assert c.used + AsSeq(p.answer) + [] == c.used + AsSeq(p.answer);
  }

  /** A run makes up no answers: without a further resume record, it hears
      nothing further. */
  lemma {:induction false} HeardStays(g: Runnable, log: seq<Record>, log': seq<Record>)
    requires g.Wired() && Reachable(g, log') && log <= log' && log != [] && Steered(log') == Steered(log)
    ensures Heard(log') == Heard(log)
    decreases |log'|
  {
    hide Runnable.Wired, Reachable, Abs, ReplayLog, Advance, Apply, LegalAfter, Steered;
    if log == log' {
    } else {
      var prev, r := log'[..|log'| - 1], log'[|log'| - 1];
      assert log' == prev + [r] && log <= prev && log == prev[..|log|];
      SteeredSnoc(prev, r);
      SteeredSince(prev, |log|);
      ReachablePrefix(g, log', |prev|);
      assert log'[..|prev|] == prev;
      HeardStays(g, log, prev);
      AbsSnoc(prev, r);
      ReplaySnoc(prev, r);
      HeardAfter(g, ReplayLog(prev), Abs(prev), TailOf(prev), r);
    }
  }
}
