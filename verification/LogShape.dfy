/** What holds of every reachable log, whatever crashed: record numbers are
    dense, steps never go back, commits form one unbroken chain, and the
    idempotency keys of two executions agree exactly when they are attempts of
    the same execution. */
module LogShape {
  import opened GraphModel
  import opened RunLog
  import opened Ideal

  lemma {:induction false} SeqIsDense(g: Runnable, log: seq<Record>, i: nat)
    requires g.Wired() && Reachable(g, log) && i < |log|
    ensures log[i].seq_ == i + 1
  {
    ReachablePrefix(g, log, i);
  }

  ghost predicate NotBefore(p: Replay, p': Replay) {
    p.step <= p'.step && (p.step == p'.step ==> p.next == p'.next)
  }

  lemma NotBeforeAfter(g: Runnable, p: Replay, t: Tail, r: Record)
    requires g.Wired() && LegalAfter(g, p, t, r.body)
    ensures NotBefore(p, Apply(p, r))
  {}

  /** The step count never falls, and while it stands still so does the node. */
  lemma {:induction false} StepsNeverGoBack(g: Runnable, log: seq<Record>, i: nat, j: nat)
    requires g.Wired() && Reachable(g, log) && 1 <= i <= j <= |log|
    ensures NotBefore(ReplayLog(log[..i]), ReplayLog(log[..j]))
    decreases j
  {
    hide LegalAfter, Runnable.Wired, Apply;
    if i < j {
      StepsNeverGoBack(g, log, i, j - 1);
      ReachablePrefix(g, log, j - 1);
      ReplaySnoc(log[..j - 1], log[j - 1]);
      NotBeforeAfter(g, ReplayLog(log[..j - 1]), TailOf(log[..j - 1]), log[j - 1]);
    }
  }

  /** An execution of a committed step never starts again. */
  lemma {:induction false} NoRestartOfCommitted(g: Runnable, log: seq<Record>, i: nat, j: nat)
    requires g.Wired() && Reachable(g, log) && i < j < |log|
    requires log[i].body.NodeCommit? && log[j].body.NodeStart?
    ensures log[i].body.step < log[j].body.step <= g.maxSteps
  {
    ReachablePrefix(g, log, i);
    ReachablePrefix(g, log, j);
    ReplaySnoc(log[..i], log[i]);
    StepsNeverGoBack(g, log, i + 1, j);
  }

  predicate Chain(cs: seq<Commit>, base: nat, step: nat, next: string) {
    && base + |cs| == step
    && (forall k | 0 <= k < |cs| :: cs[k].step == base + k + 1)
    && (forall k | 0 < k < |cs| :: cs[k].node == cs[k - 1].next)
    && (cs != [] ==> cs[|cs| - 1].next == next)
  }

  lemma ChainAfter(g: Runnable, p: Replay, c: Config, t: Tail, b: Body, base: nat)
    requires g.Wired() && Restores(p, c) && LegalAfter(g, p, t, b)
    requires Chain(c.commits, base, c.step, c.next) && (c.commits != [] ==> c.step <= g.maxSteps)
    ensures var c' := Advance(c, AsSeq(p.answer), b);
      Chain(c'.commits, base, c'.step, c'.next) && (c'.commits != [] ==> c'.step <= g.maxSteps)
  {}

  function FirstStep(log: seq<Record>): nat
    requires log != []
  {
    if log[0].body.RunStart? then log[0].body.step else 0
  }

  /** The commits of a run are numbered on from where it started without a gap,
      each is of the node that the one before routed to, the run continues where
      the last one routed, and the step limit holds: for a run from Start, that
      is steps 1, 2, 3, ... up to maxSteps. */
  lemma {:induction false} CommitsFormChain(g: Runnable, log: seq<Record>)
    requires g.Wired() && Reachable(g, log) && log != []
    ensures Chain(Abs(log).commits, FirstStep(log), Abs(log).step, Abs(log).next)
    ensures Abs(log).commits != [] ==> Abs(log).step <= g.maxSteps
    ensures |Abs(log).commits| <= g.maxSteps
    ensures FromStart(g, log[0].body) ==> |Abs(log).commits| == Abs(log).step <= g.maxSteps
  {
    hide Runnable.Wired, LegalAfter;
    var prev, r := log[..|log| - 1], log[|log| - 1];
    ReplayRestores(g, log);
    if prev == [] {
      assert log[0] == r;
    } else {
      CommitsFormChain(g, prev);
      ReplayRestores(g, prev);
      ChainAfter(g, ReplayLog(prev), Abs(prev), TailOf(prev), r.body, FirstStep(log));
    }
  }

  /** The attempt number in a commit record is the number of executions of the
      node so far, counting this one: for every run whose log is its own. */
  lemma {:induction false} AttemptsAreCounted(g: Runnable, log: seq<Record>, i: nat)
    requires g.Wired() && Reachable(g, log) && i < |log| && log[i].body.NodeCommit? && !Imported(log)
    ensures log[i].body.attempt == multiset(Abs(log[..i]).path)[log[i].body.node] + 1
    ensures var es := Abs(log[..i + 1]).execs;
      es != [] && es[|es| - 1] == Exec(log[i].body.node, log[i].body.step, log[i].body.attempt)
  {
    hide Runnable.Wired, Reachable, Abs, ReplayLog;
    ReachablePrefix(g, log, i);
    ReplayRestores(g, log[..i]);
    AbsSnoc(log[..i], log[i]);
    AttemptIs(g, log[..i], log[i]);
  }

  lemma {:induction false} AttemptIs(g: Runnable, log: seq<Record>, r: Record)
    requires g.Wired() && Legal(g, log, r) && r.body.NodeCommit? && !Imported(log)
    ensures log != [] && r.body.attempt == multiset(ReplayLog(log).path)[r.body.node] + 1
  {}

  // ----- what the records say -----

  /** A commit routes along the static edge, or where the route function sent the
      state that it holds, among the declared targets. */
  lemma {:induction false} RoutesAreTaken(g: Runnable, log: seq<Record>, i: nat)
    requires g.Wired() && Reachable(g, log) && i < |log| && log[i].body.NodeCommit?
    ensures var b := log[i].body;
      if b.node in g.statics then b.next == g.statics[b.node]
      else b.node in g.cond && g.cond[b.node].route(b.state) == Some(b.next) && b.next in g.cond[b.node].targets
  {
    ReachablePrefix(g, log, i);
    g.NextIs(log[i].body.node, log[i].body.state, log[i].body.next);
  }

  /** A commit holds what its node computed from the state before it, as the
      execution of that number, with the answer given for it. */
  lemma {:induction false} CommitsAreComputed(g: Runnable, log: seq<Record>, i: nat)
    requires g.Wired() && Reachable(g, log) && i < |log| && log[i].body.NodeCommit?
    ensures var b, p := log[i].body, ReplayLog(log[..i]);
      && b.node == p.next && b.node in g.nodes && b.node !in g.branches && b.step == p.step + 1
      && match g.nodes[b.node]
         case Func(fn) => fn(b.step, p.state, p.answer) == Done(b.state)
         case Parallel(bs, merge) =>
           exists rs: seq<State> | |rs| == |bs| ::
             && (forall k | 0 <= k < |rs| ::
                   bs[k] in g.nodes && g.nodes[bs[k]].Func?
                   && g.nodes[bs[k]].fn(b.step, g.clone(p.state), p.answer) == Done(rs[k]))
             && merge(p.state, rs) == Done(b.state)
  {
    hide Runnable.Wired, Reachable, ReplayLog, Runnable.Eval;
    ReachablePrefix(g, log, i);
    CommitIsEval(g, log[..i], log[i]);
    var b, p := log[i].body, ReplayLog(log[..i]);
    g.EvalIs(b.node, b.step, p.state, p.answer);
  }

  lemma {:induction false} CommitIsEval(g: Runnable, log: seq<Record>, r: Record)
    requires g.Wired() && Legal(g, log, r) && r.body.NodeCommit?
    ensures var b, p := r.body, ReplayLog(log);
      && b.node == p.next && g.Steppable(b.node) && b.step == p.step + 1
      && g.Eval(b.node, b.step, p.state, p.answer) == Done(b.state)
  {}

  /** A question is one that its node, a plain one, asked about the state before
      it; but for the question that stands for an imported checkpoint. */
  lemma {:induction false} QuestionsAreAsked(g: Runnable, log: seq<Record>, i: nat)
    requires g.Wired() && Reachable(g, log) && 1 < i < |log| && log[i].body.Interrupt?
    ensures var b, p := log[i].body, ReplayLog(log[..i]);
      && b.node == p.next && b.step == p.step + 1 && b.node in g.nodes && g.nodes[b.node].Func?
      && g.nodes[b.node].fn(b.step, p.state, p.answer) == Ask(b.state, b.question)
  {
    hide Runnable.Wired, Reachable, ReplayLog, Runnable.Eval;
    ReachablePrefix(g, log, i - 1);
    ReachablePrefix(g, log, i);
    assert log[..i][i - 1] == log[i - 1] && log[..i][..i - 1] == log[..i - 1];
    InterruptIsEval(g, log[..i], log[i]);
    var b, p := log[i].body, ReplayLog(log[..i]);
    g.EvalIs(b.node, b.step, p.state, p.answer);
  }

  lemma {:induction false} InterruptIsEval(g: Runnable, log: seq<Record>, r: Record)
    requires g.Wired() && |log| > 1 && Legal(g, log, r) && Legal(g, log[..|log| - 1], log[|log| - 1])
    requires r.body.Interrupt?
    ensures var b, p := r.body, ReplayLog(log);
      && b.node == p.next && g.Steppable(b.node) && b.step == p.step + 1
      && g.Eval(b.node, b.step, p.state, p.answer) == Ask(b.state, b.question)
  {
    assert |log[..|log| - 1]| > 0;
    assert !TailOf(log).last.RunStart?;
    hide TailOf;
  }

  /** Replay restores the state of the last record that holds one, the next node
      and the step of the last that routes, and an answer exactly if it is the
      last word on the question. */
  lemma {:induction false} ReplayReadsLast(g: Runnable, log: seq<Record>, i: nat)
    requires g.Wired() && Reachable(g, log) && i < |log|
    ensures var b, p := log[i].body, ReplayLog(log);
      && ((b.RunStart? || b.NodeCommit? || b.Interrupt? || b.Fork?)
          && (forall j | i < j < |log| ::
                var c := log[j].body; !c.RunStart? && !c.NodeCommit? && !c.Interrupt? && !c.Fork?)
          ==> p.state == b.state)
      && ((b.RunStart? || b.NodeCommit? || b.Fork?)
          && (forall j | i < j < |log| :: var c := log[j].body; !c.RunStart? && !c.NodeCommit? && !c.Fork?)
          ==> p.next == b.next && p.step == b.step)
      && ((b.Resume? || b.RunStart? || b.NodeCommit? || b.Interrupt? || b.Fork?)
          && (forall j | i < j < |log| ::
                var c := log[j].body; !c.Resume? && !c.RunStart? && !c.NodeCommit? && !c.Interrupt? && !c.Fork?)
          ==> p.answer == if b.Resume? then Some(b.answer) else None)
  {
    hide Runnable.Wired, Reachable, ReplayLog, Apply, LegalAfter;
    var n := |log| - 1;
    ReachablePrefix(g, log, n);
    ReplaySnoc(log[..n], log[n]);
    assert log == log[..n] + [log[n]];
    if n > 0 { ReachableIsConsistent(g, log[..n]); }
    if i < n {
      ReplayReadsLast(g, log[..n], i);
      assert log[..n][i] == log[i] && forall j | i < j < n :: log[j] == log[..n][j];
      KeepsLast(g, ReplayLog(log[..n]), TailOf(log[..n]), log[n]);
    } else {
      SetsLast(g, log[..n], log[n]);
    }
  }

  lemma KeepsLast(g: Runnable, p: Replay, t: Tail, r: Record)
    requires g.Wired() && LegalAfter(g, p, t, r.body)
    ensures var b, p' := r.body, Apply(p, r);
      && (!b.RunStart? && !b.NodeCommit? && !b.Interrupt? && !b.Fork? ==> p'.state == p.state)
      && (!b.RunStart? && !b.NodeCommit? && !b.Fork? ==> p'.next == p.next && p'.step == p.step)
      && (!b.Resume? && !b.RunStart? && !b.NodeCommit? && !b.Interrupt? && !b.Fork? ==> p'.answer == p.answer)
  {}

  lemma {:induction false} SetsLast(g: Runnable, log: seq<Record>, r: Record)
    requires g.Wired() && Legal(g, log, r) && (log != [] ==> Consistent(g, ReplayLog(log)))
    ensures var b, p' := r.body, Apply(ReplayLog(log), r);
      && (b.RunStart? || b.NodeCommit? || b.Interrupt? || b.Fork? ==> p'.state == b.state)
      && (b.RunStart? || b.NodeCommit? || b.Fork? ==> p'.next == b.next && p'.step == b.step)
      && (b.Resume? ==> p'.answer == Some(b.answer))
      && (b.RunStart? || b.NodeCommit? || b.Interrupt? || b.Fork? ==> p'.answer == None)
  {}

  /** The topology hash that replay hands to Recover and Fork is the one that the
      run was started with. */
  lemma {:induction false} HashIsKept(g: Runnable, log: seq<Record>)
    requires g.Wired() && Reachable(g, log) && log != []
    ensures log[0].body.RunStart? && ReplayLog(log).started && ReplayLog(log).topoHash == log[0].body.topoHash
  {
    hide Runnable.Wired, LegalAfter, Apply;
    var prev, r := log[..|log| - 1], log[|log| - 1];
    assert log == prev + [r];
    ReplaySnoc(prev, r);
    if prev == [] {
      FirstSets(r);
    } else {
      HashIsKept(g, prev);
      HashStays(ReplayLog(prev), r);
    }
  }

  lemma FirstSets(r: Record)
    requires r.body.RunStart?
    ensures Apply(EMPTY, r).started && Apply(EMPTY, r).topoHash == r.body.topoHash
  {}

  lemma HashStays(p: Replay, r: Record)
    requires p.started
    ensures Apply(p, r).started && Apply(p, r).topoHash == p.topoHash
  {}

  // ----- idempotency keys -----

  function Digit(n: nat): char
    requires n < 10
  {
    "0123456789"[n]
  }

  function Itoa(n: nat): (s: string)
    ensures ':' !in s && |s| >= 1 && (n >= 10 <==> |s| > 1)
  {
    if n < 10 then [Digit(n)] else Itoa(n / 10) + [Digit(n % 10)]
  }

  /** The number that a text of digits reads as. */
  function Decimal(s: string): int {
    if s == "" then 0 else 10 * Decimal(s[..|s| - 1]) + (s[|s| - 1] as int - '0' as int)
  }

  lemma {:induction false} ItoaReads(n: nat)
    ensures Decimal(Itoa(n)) == n && (n > 0 ==> Itoa(n)[0] != '0')
    ensures forall i | 0 <= i < |Itoa(n)| :: '0' <= Itoa(n)[i] <= '9'
  {
    DigitReads(n % 10);
    if n >= 10 {
      ItoaReads(n / 10);
      assert Itoa(n)[..|Itoa(n)| - 1] == Itoa(n / 10);
    } else {
      assert Itoa(n)[..0] == "";
    }
  }

  lemma DigitReads(n: nat)
    requires n < 10
    ensures Digit(n) as int - '0' as int == n && '0' <= Digit(n) <= '9'
  {}

  /** IdempotencyKey: runID:node:step. */
  function IdempotencyKey(runID: string, node: string, step: nat): string {
    runID + ":" + node + ":" + Itoa(step)
  }

  lemma {:induction false} ItoaInjective(m: nat, n: nat)
    requires Itoa(m) == Itoa(n)
    ensures m == n
  {
    var a, b := Itoa(m), Itoa(n);
    assert m >= 10 <==> n >= 10;
    assert a[|a| - 1] == b[|b| - 1];
    if m >= 10 {
      assert a[..|a| - 1] == Itoa(m / 10) && b[..|b| - 1] == Itoa(n / 10);
      ItoaInjective(m / 10, n / 10);
    }
  }

  function AfterLastColon(u: string): string {
    if u == "" || u[|u| - 1] == ':' then "" else AfterLastColon(u[..|u| - 1]) + [u[|u| - 1]]
  }

  /** A node name may contain colons; the digits after the last one are still
      the step. */
  lemma {:induction false} LastColonSplits(x: string, s: string)
    requires ':' !in s
    ensures AfterLastColon(x + ":" + s) == s
  {
    var u := x + ":" + s;
    if s != "" {
      assert u[..|u| - 1] == x + ":" + s[..|s| - 1];
      LastColonSplits(x, s[..|s| - 1]);
    }
  }

  lemma KeyIsInjective(runID: string, n1: string, k1: nat, n2: string, k2: nat)
    ensures IdempotencyKey(runID, n1, k1) == IdempotencyKey(runID, n2, k2) <==> n1 == n2 && k1 == k2
  {
    if IdempotencyKey(runID, n1, k1) == IdempotencyKey(runID, n2, k2) {
      var x1, x2 := runID + ":" + n1, runID + ":" + n2;
      LastColonSplits(x1, Itoa(k1));
      LastColonSplits(x2, Itoa(k2));
      assert (x1 + ":" + Itoa(k1))[..|x1|] == x1 && (x2 + ":" + Itoa(k2))[..|x2|] == x2;
      assert x1[|runID| + 1..] == n1 && x2[|runID| + 1..] == n2;
      ItoaInjective(k1, k2);
    }
  }

  /** Of any runs: keys are equal exactly if the steps are, and run and node read
      together. So they are for equal runs and nodes only, unless a run id has a
      colon in it. */
  lemma KeysAcrossRuns(run1: string, n1: string, k1: nat, run2: string, n2: string, k2: nat)
    ensures IdempotencyKey(run1, n1, k1) == IdempotencyKey(run2, n2, k2)
      <==> run1 + ":" + n1 == run2 + ":" + n2 && k1 == k2
    ensures ':' !in run1 && ':' !in run2 ==>
      (IdempotencyKey(run1, n1, k1) == IdempotencyKey(run2, n2, k2) <==> run1 == run2 && n1 == n2 && k1 == k2)
  {
    var x1, x2 := run1 + ":" + n1, run2 + ":" + n2;
    if IdempotencyKey(run1, n1, k1) == IdempotencyKey(run2, n2, k2) {
      LastColonSplits(x1, Itoa(k1));
      LastColonSplits(x2, Itoa(k2));
      assert (x1 + ":" + Itoa(k1))[..|x1|] == x1 && (x2 + ":" + Itoa(k2))[..|x2|] == x2;
      ItoaInjective(k1, k2);
    }
    if ':' !in run1 && ':' !in run2 && x1 == x2 {
      FirstColonSplits(run1, n1, run2, n2);
    }
  }

  lemma FirstColonSplits(a: string, x: string, b: string, y: string)
    requires ':' !in a && ':' !in b && a + ":" + x == b + ":" + y
    ensures a == b && x == y
  {
    var u := a + ":" + x;
    assert u[|a|] == ':' && u[|b|] == ':';
    assert forall i | 0 <= i < |a| :: u[i] == a[i];
    assert forall i | 0 <= i < |b| :: u[i] == b[i];
    assert |a| == |b|;
    assert a == u[..|a|] && b == u[..|b|] && x == u[|a| + 1..] && y == u[|b| + 1..];
  }

  /** Two run ids with which it shows. */
  lemma ColonsConfuseRuns()
    ensures IdempotencyKey("a:b", "c", 1) == IdempotencyKey("a", "b:c", 1)
  {
    assert "a:b" + ":" + "c" == "a" + ":" + "b:c";
    KeysAcrossRuns("a:b", "c", 1, "a", "b:c", 1);
  }

  /** Two executions that a run ever starts have the same key exactly when they
      have the same step number; then they are attempts of the same node, and
      nothing was committed in between. */
  lemma {:induction false} KeysIdentifyExecutions(g: Runnable, runID: string, log: seq<Record>, i: nat, j: nat)
    requires g.Wired() && Reachable(g, log) && i < j < |log|
    requires log[i].body.NodeStart? && log[j].body.NodeStart?
    ensures (IdempotencyKey(runID, log[i].body.node, log[i].body.step) ==
             IdempotencyKey(runID, log[j].body.node, log[j].body.step)) <==> log[i].body.step == log[j].body.step
    ensures log[i].body.step == log[j].body.step <==> forall m | i < m < j :: !log[m].body.NodeCommit?
  {
    KeyIsInjective(runID, log[i].body.node, log[i].body.step, log[j].body.node, log[j].body.step);
    ReachablePrefix(g, log, i);
    ReachablePrefix(g, log, j);
    assert log[..0] == [];
    StepsNeverGoBack(g, log, i, j);
    if m :| i < m < j && log[m].body.NodeCommit? {
      NoRestartOfCommitted(g, log, m, j);
      ReachablePrefix(g, log, m);
      StepsNeverGoBack(g, log, i, m);
    }
    if forall m | i < m < j :: !log[m].body.NodeCommit? {
      StepStandsStill(g, log, i, j);
    }
  }

  lemma {:induction false} StepStandsStill(g: Runnable, log: seq<Record>, i: nat, j: nat)
    requires g.Wired() && Reachable(g, log) && 1 <= i <= j <= |log|
    requires forall m | i <= m < j :: !log[m].body.NodeCommit?
    ensures ReplayLog(log[..i]).step == ReplayLog(log[..j]).step
    decreases j
  {
    hide LegalAfter, Runnable.Wired, Apply;
    if i < j {
      StepStandsStill(g, log, i, j - 1);
      ReachablePrefix(g, log, j - 1);
      ReplaySnoc(log[..j - 1], log[j - 1]);
      OnlyCommitsStep(g, ReplayLog(log[..j - 1]), TailOf(log[..j - 1]), log[j - 1]);
    }
  }

  lemma OnlyCommitsStep(g: Runnable, p: Replay, t: Tail, r: Record)
    requires g.Wired() && LegalAfter(g, p, t, r.body) && !r.body.NodeCommit?
    ensures Apply(p, r).step == p.step
  {}
}
