/** The whole life of a run, over any number of calls and processes. */
module Lifetime {
  import opened GraphModel
  import opened RunLog
  import opened Ideal
  import opened Charging
  import opened Runtime
  import opened Engine

  /** Where the reference run ends that starts on init and is given answers. */
  ghost function End(g: Runnable, init: State, answers: seq<string>): Config
    requires g.Wired() && g.Next(START, init).Some?
  {
    Iterate(g, answers, Fresh(init, g.Next(START, init).value, 0), g.maxSteps + 2 * |answers| + 1)
  }

  /** Nothing but answers was put into the log, each when a question was waiting
      for it. */
  predicate OnlyAnswered(log: seq<Record>) {
    forall j | 0 <= j < |log| && Steers(log[..j], log[j].body) :: log[j].body.Resume? && ReplayLog(log[..j]).Waiting()
  }

  /** The run's log, from its first record on. */
  ghost predicate Living(g: Runnable, init: State, log: seq<Record>)
    requires g.Wired()
  {
    && Reachable(g, log) && OnlyAnswered(log)
    && (log != [] ==> g.Next(START, init).Some? && log[0] == StartRecord(g, init, g.Next(START, init).value))
  }

  /** What a life leaves at any point of it, it could have left. */
  lemma {:induction false} LivedPrefix(g: Runnable, init: State, log: seq<Record>, k: nat)
    requires g.Wired() && Living(g, init, log) && k <= |log|
    ensures Living(g, init, log[..k])
  {
    hide Runnable.Wired, Reachable, ReplayLog, Steers;
    ReachablePrefix(g, log, k);
    assert forall j | 0 <= j < k :: log[..k][..j] == log[..j];
  }

  lemma {:induction false} LivesOn(g: Runnable, init: State, log: seq<Record>, log': seq<Record>)
    requires g.Wired() && Living(g, init, log) && log <= log' && Reachable(g, log') && Steered(log') == Steered(log)
    requires log == [] ==> log' == []
    ensures Living(g, init, log') && Given(log') == Given(log)
  {
    hide Runnable.Wired, Reachable, ReplayLog, Steers, Steered;
    assert log == log'[..|log|];
    SteeredSince(log', |log|);
    assert forall j | 0 <= j < |log| :: log[..j] == log'[..j];
    if log != [] { assert log[0] == log'[0]; }
  }

  lemma {:induction false} LivesOnAnswered(g: Runnable, init: State, log: seq<Record>, cp: Checkpoint, answer: string,
          log': seq<Record>)
    requires g.Wired() && Living(g, init, log) && log != [] && Reachable(g, log') && cp.step >= 0
    requires ReplayLog(log).Waiting() && Answered(log, cp, answer, log')
    ensures Living(g, init, log') && Given(log') == Given(log) + [answer]
  {
    hide Runnable.Wired, Reachable, ReplayLog, Steered;
    var r := ResumeRecord(log, cp, answer);
    var log1 := log + [r];
    SteeredSnoc(log, r);
    assert log1 == log'[..|log1|];
    SteeredSince(log', |log1|);
    forall j | 0 <= j < |log'| && Steers(log'[..j], log'[j].body)
      ensures log'[j].body.Resume? && ReplayLog(log'[..j]).Waiting()
    {
      if j < |log| {
        assert log'[..j] == log[..j] && log'[j] == log[j];
      } else if j == |log| {
        assert log'[..j] == log && log'[j] == r;
      }
    }
    assert log'[0] == log[0];
  }

  lemma {:induction false} AnswerIsHeard(g: Runnable, init: State, log: seq<Record>, cp: Checkpoint, answer: string,
          log': seq<Record>)
    requires g.Wired() && Living(g, init, log) && log != [] && Reachable(g, log') && cp.step >= 0
    requires ReplayLog(log).Waiting() && (Answered(log, cp, answer, log') || log' == log)
    ensures Living(g, init, log')
    ensures Given(log') == Given(log) + [answer] || log' == log
  {
    hide Reachable, OnlyAnswered, ReplayLog, Answered, Given;
    if Answered(log, cp, answer, log') { LivesOnAnswered(g, init, log, cp, answer, log'); }
  }

  /** What such a run heard is what it was given. */
  lemma {:induction false} HearsTheGiven(g: Runnable, log: seq<Record>)
    requires g.Wired() && Reachable(g, log) && OnlyAnswered(log)
    ensures Heard(log) == Given(log)
  {
    hide Runnable.Wired, Reachable, Abs, Advance, Apply, LegalAfter, Steered;
    if log == [] {
      assert Heard([]) == [] && Given([]) == [] by { NothingHeard(); }
    } else {
      var prev, r := log[..|log| - 1], log[|log| - 1];
      assert log == prev + [r] && forall j | 0 <= j <= |prev| :: log[..j] == prev[..j];
      ReachablePrefix(g, log, |prev|);
      HearsTheGiven(g, prev);
      SteeredSnoc(prev, r);
      AnswersSnoc(Steered(prev), r.body);
      assert Steered(prev) + [] == Steered(prev);
      AbsSnoc(prev, r);
      ReplaySnoc(prev, r);
      assert log[..|prev|] == prev && log[|prev|] == r;
      assert Steers(prev, r.body) ==> r.body.Resume? && ReplayLog(prev).Waiting();
      if prev == [] {
        FirstHearsNothing(g, r);
      } else {
        HeardAfter(g, ReplayLog(prev), Abs(prev), TailOf(prev), r);
      }
    }
  }

  lemma NothingHeard()
    ensures Heard([]) == [] && Given([]) == []
  {}

  lemma FirstHearsNothing(g: Runnable, r: Record)
    requires g.Wired() && Legal(g, [], r)
    ensures var c := Advance(Abs([]), AsSeq(ReplayLog([]).answer), r.body);
      c.used + AsSeq(Apply(ReplayLog([]), r).answer) == Heard([])
    ensures r.body.RunStart?
  {}

  lemma {:induction false} LivingEnds(g: Runnable, init: State, log: seq<Record>, res: Outcome)
    requires g.Wired() && log != [] && Living(g, init, log) && res.Finished? && MatchesReference(g, log, res)
    requires ReplayLog(log).Finished()
    ensures Abs(log) == End(g, init, Given(log)) && Abs(log).state == res.state
    ensures Abs(log).path == ReplayLog(log).path && !Imported(log)
  {
    hide Runnable.Wired, Reachable, ReplayLog;
    NeverForked(log);
    HearsTheGiven(g, log);
    ReachableIsConsistent(g, log);
    assert Abs(log).used + [] == Abs(log).used;
    AbsSnoc([], log[0]);
    assert log[..1] == [] + [log[0]];
  }

  lemma NeverForked(log: seq<Record>)
    requires OnlyAnswered(log)
    ensures NoForkSince(log, 0) && !Imported(log)
  {
    forall j | 0 <= j < |log| ensures !log[j].body.Fork? { assert log[j].body.Fork? ==> Steers(log[..j], log[j].body); }
    assert Imported(log) ==> Steers(log[..1], log[1].body);
  }

  /** What a caller holds after a call: a result that tells about the log, and
      the report that goes with it. */
  ghost predicate Held(g: Runnable, log: seq<Record>, runID: string, res: Outcome, rec: Recorder)
    requires g.Wired()
    reads rec
  {
    && (!res.Failed? ==> log != [] && Reported(rec, log))
    && (res.Finished? ==> ReplayLog(log).Finished())
    && (res.Paused? ==> IsCheckpointOf(res.cp, runID, log) && ReplayLog(log).Waiting())
    && MatchesReference(g, log, res)
  }

  lemma ReturnedHolds(g: Runnable, log: seq<Record>, runID: string, res: Outcome, rec: Recorder, faulty: bool,
          held0: seq<string>, logged0: seq<string>)
    requires g.Wired() && MatchesReference(g, log, res)
    requires res.Failed? || (Returned(g, log, runID, res, faulty) && Accounted(rec, log, res, held0, logged0))
    ensures Held(g, log, runID, res, rec)
  {
    if !res.Failed? { AccountedShows(rec, log, res, held0, logged0); }
    hide MatchesReference, Reported, ReplayLog, Accounted;
  }

  /** xs can be had from ys by leaving some out. */
  predicate Among(xs: seq<string>, ys: seq<string>) {
    xs == [] ||
    (ys != [] && (Among(xs, ys[..|ys| - 1])
                  || (xs[|xs| - 1] == ys[|ys| - 1] && Among(xs[..|xs| - 1], ys[..|ys| - 1]))))
  }

  lemma {:induction false} AmongMore(xs: seq<string>, ys: seq<string>, y: string)
    requires Among(xs, ys)
    ensures Among(xs, ys + [y]) && Among(xs + [y], ys + [y])
  {
    assert (ys + [y])[..|ys|] == ys && (xs + [y])[..|xs|] == xs;
  }

  lemma {:induction false} AmongPrefix(xs: seq<string>, ys: seq<string>, xs': seq<string>)
    requires Among(xs, ys) && xs' <= xs
    ensures Among(xs', ys)
    decreases |ys|
  {
    if xs' == xs || xs' == [] {
    } else if Among(xs, ys[..|ys| - 1]) {
      AmongPrefix(xs, ys[..|ys| - 1], xs');
    } else {
      AmongPrefix(xs[..|xs| - 1], ys[..|ys| - 1], xs');
    }
  }

  /** A further call on the run: the answer to the question handed out. It goes
      into the log once, or, if the environment interfered, perhaps not at all. */
  method Answer(g: Runnable, store: Store, runID: string, init: State, res0: Outcome, rec0: Recorder, answer: string)
    returns (res: Outcome, rec: Recorder)
    requires g.Wired() && Living(g, init, store.Log(runID)) && Held(g, store.Log(runID), runID, res0, rec0)
             && res0.Paused?
    modifies store
    ensures store.Grew(runID)
    ensures Living(g, init, store.Log(runID)) && Held(g, store.Log(runID), runID, res, rec)
    ensures Given(store.Log(runID)) == old(Given(store.Log(runID))) + [answer]
            || (Given(store.Log(runID)) == old(Given(store.Log(runID))) && store.faults > old(store.faults))
    ensures store.faults == old(store.faults) ==> Returned(g, store.Log(runID), runID, res, false)
  {
    ghost var log := store.Log(runID);
    AskedIsKnown(g, runID, init, log, res0, rec0);
    hide Steered, Given, Runnable.Wired, Reachable, Returned, MatchesReference, Abs, ReplayLog, Accounted, Living,
      IsCheckpointOf, Asked, Answered, Spent, Held;
    var charges: nat -> Charges := *;
    res, rec := Engine.Resume(g, store, res0.cp, answer, charges);
    assert Answered(log, res0.cp, answer, store.Log(runID)) || store.Log(runID) == log;
    AnswerIsHeard(g, init, log, res0.cp, answer, store.Log(runID));
    ReturnedHolds(g, store.Log(runID), runID, res, rec, store.faults > old(store.faults), res0.cp.path,
                  ReplayLog(log).path);
  }

  lemma {:induction false} AskedIsKnown(g: Runnable, runID: string, init: State, log: seq<Record>, res: Outcome,
          rec: Recorder)
    requires g.Wired() && Living(g, init, log) && Held(g, log, runID, res, rec) && res.Paused?
    ensures log != [] && Reachable(g, log) && IsCheckpointOf(res.cp, runID, log) && ReplayLog(log).Waiting()
    ensures res.cp.runID == runID && g.Steppable(res.cp.node) && res.cp.step >= 0 && Asked(g, res.cp, log) == log
  {
    ReachableIsConsistent(g, log);
  }

  /** A further call on the run: Recover, which gives it no answer. It never
      turns a run of this graph away. */
  method CarryOn(g: Runnable, store: Store, runID: string, init: State) returns (res: Outcome, rec: Recorder)
    requires g.Wired() && Living(g, init, store.Log(runID))
    modifies store
    ensures store.Grew(runID)
    ensures Living(g, init, store.Log(runID)) && Held(g, store.Log(runID), runID, res, rec)
    ensures Given(store.Log(runID)) == old(Given(store.Log(runID)))
    ensures store.faults == old(store.faults) ==>
      if old(store.Log(runID)) == [] then res == Failed("", NotFound)
      else Returned(g, store.Log(runID), runID, res, false)
  {
    ghost var log := store.Log(runID);
    assert !ReplayLog([]).started;
    NotRefused(g, init, log);
    hide Steered, Given, Runnable.Wired, Reachable, Returned, MatchesReference, Abs, ReplayLog, Accounted,
      OnlyAnswered, Spent, Held, IsCheckpointOf;
    var charges: nat -> Charges := *;
    res, rec := Engine.Recover(g, store, runID, charges);
    LivesOn(g, init, log, store.Log(runID));
    ReturnedHolds(g, store.Log(runID), runID, res, rec, store.faults > old(store.faults), ReplayLog(log).path,
                  ReplayLog(log).path);
  }

  lemma NotRefused(g: Runnable, init: State, log: seq<Record>)
    requires g.Wired() && Living(g, init, log)
    ensures Refusal(g, log) == if log == [] then Some(NotFound) else None
  {}

  /** The power fails: the caller's process dies, and the log loses its end. */
  method LosePower(g: Runnable, store: Store, runID: string, init: State, ghost answers: seq<string>, rec: Recorder)
    returns (res: Outcome)
    requires g.Wired() && Living(g, init, store.Log(runID)) && Among(Given(store.Log(runID)), answers)
    modifies store
    ensures forall x | x != runID :: store.Log(x) == old(store.Log(x))
    ensures store.faults > old(store.faults) && store.Log(runID) <= old(store.Log(runID))
    ensures Living(g, init, store.Log(runID)) && Held(g, store.Log(runID), runID, res, rec)
    ensures Among(Given(store.Log(runID)), answers) && res.Failed?
  {
    hide Steered, Given, Runnable.Wired, Reachable, Living, Held, Among;
    var left: nat :| left <= |store.Log(runID)|;
    LoseEnd(g, init, store.Log(runID), left, answers);
    store.Lose(runID, left);
    res := Failed(init, CheckpointError);
    HoldsNothing(g, store.Log(runID), runID, init, rec);
  }

  /** Of the first n answers the log has some, in order; all of them, if nothing
      interfered. */
  ghost predicate Heeded(log: seq<Record>, answers: seq<string>, n: nat, quiet: bool) {
    && n <= |answers| && Among(Given(log), answers[..n])
    && (quiet ==> Given(log) == answers[..n])
  }

  lemma HeededMore(log: seq<Record>, answers: seq<string>, n: nat, log': seq<Record>, quiet: bool, quiet': bool)
    requires Heeded(log, answers, n, quiet) && n < |answers| && (quiet' ==> quiet)
    requires Given(log') == Given(log) + [answers[n]] || (Given(log') == Given(log) && !quiet')
    ensures Heeded(log', answers, n + 1, quiet')
  {
    hide Given, Among;
    AmongMore(Given(log), answers[..n], answers[n]);
    assert answers[..n + 1] == answers[..n] + [answers[n]];
  }

  /** What may happen next to a run that has not finished. faults counts what
      had gone wrong when its life began. */
  method WhatNext(g: Runnable, store: Store, runID: string, init: State, res0: Outcome, rec0: Recorder,
          answers: seq<string>, n0: nat, ghost faults: nat)
    returns (res: Outcome, rec: Recorder, n: nat)
    requires g.Wired() && Living(g, init, store.Log(runID)) && Held(g, store.Log(runID), runID, res0, rec0)
    requires faults <= store.faults && Heeded(store.Log(runID), answers, n0, store.faults == faults)
    modifies store
    ensures forall x | x != runID :: store.Log(x) == old(store.Log(x))
    ensures Living(g, init, store.Log(runID)) && Held(g, store.Log(runID), runID, res, rec)
    ensures faults <= store.faults && Heeded(store.Log(runID), answers, n, store.faults == faults)
  {
    hide Steered, Given, Runnable.Wired, Reachable, Living, Held, Among;
    var resume: bool, loss: bool := *, *;
    ghost var log, quiet := store.Log(runID), store.faults == faults;
    n := n0;
    if loss {
      rec := rec0;
      res := LosePower(g, store, runID, init, answers[..n], rec);
    } else if resume && res0.Paused? && n < |answers| {
      res, rec := Answer(g, store, runID, init, res0, rec0, answers[n]);
      HeededMore(log, answers, n, store.Log(runID), quiet, store.faults == faults);
      n := n + 1;
    } else {
      res, rec := CarryOn(g, store, runID, init);
    }
  }

  /** A RUN'S LIFE. Start a run; let any call on it crash between any two
      records, fail or be cancelled, and let the power take the end of its log,
      as often as the environment likes; recover it, answer questions when they
      are handed out, or give up. n counts the answers handed in, in order. The
      log holds no answer but those, in that order: all of them, if nothing
      interfered. And if a call ever returns a final state, it is the state in
      which the reference run ends that is given exactly the answers in the
      log, and the report's path is that run's path. */
  method Live(g: Runnable, store: Store, runID: string, init: State, answers: seq<string>)
    returns (res: Outcome, rec: Recorder, n: nat)
    requires g.Wired() && store.Log(runID) == []
    modifies store
    ensures forall x | x != runID :: store.Log(x) == old(store.Log(x))
    ensures Living(g, init, store.Log(runID))
    ensures Heeded(store.Log(runID), answers, n, store.faults == old(store.faults))
    ensures res.Finished? ==>
      && g.Next(START, init).Some?
      && var c := End(g, init, Given(store.Log(runID)));
         c == Abs(store.Log(runID)) && c.state == res.state && c.path == rec.path
  {
    Born(g, init);
    hide Steered, Given, Runnable.Wired, Reachable, Returned, MatchesReference, Abs, ReplayLog, Living, Held, Among,
      Spent, Accounted;
    var charges: nat -> Charges := *;
    res, rec := Engine.Run(g, store, runID, init, charges);
    IsBorn(g, init, store.Log(runID));
    ReturnedHolds(g, store.Log(runID), runID, res, rec, store.faults > old(store.faults), [], []);
    n := 0;
    var calls: nat := *;
    while calls > 0 && !res.Finished?
      invariant forall x | x != runID :: store.Log(x) == old(store.Log(x))
      invariant Living(g, init, store.Log(runID)) && Held(g, store.Log(runID), runID, res, rec)
      invariant old(store.faults) <= store.faults
      invariant Heeded(store.Log(runID), answers, n, store.faults == old(store.faults))
    {
      res, rec, n := WhatNext(g, store, runID, init, res, rec, answers, n, old(store.faults));
      calls := calls - 1;
    }
    if res.Finished? { Ends(g, init, store.Log(runID), runID, res, rec); }
  }

  lemma {:induction false} Born(g: Runnable, init: State)
    requires g.Wired()
    ensures Given([]) == [] && Steered([]) == [] && Among([], [])
  {}

  lemma {:induction false} IsBorn(g: Runnable, init: State, log: seq<Record>)
    requires g.Wired() && Reachable(g, log) && Steered(log) == []
    requires log != [] ==> g.Next(START, init).Some? && [StartRecord(g, init, g.Next(START, init).value)] <= log
    ensures Living(g, init, log) && Given(log) == []
  {
    hide Steered, Steers;
    SteeredSince(log, 0);
    assert log[..0] == [];
    assert AnswersIn([]) == [];
  }

  lemma {:induction false} LoseEnd(g: Runnable, init: State, log: seq<Record>, left: nat, answers: seq<string>)
    requires g.Wired() && Living(g, init, log) && left <= |log| && Among(Given(log), answers)
    ensures Living(g, init, log[..left]) && Among(Given(log[..left]), answers)
  {
    hide Among, Steered;
    LivedPrefix(g, init, log, left);
    SteeredSince(log, left);
    AnswersPrefix(Steered(log[..left]), Steered(log));
    AmongPrefix(Given(log), answers, Given(log[..left]));
  }

  lemma {:induction false} AnswersPrefix(bs: seq<Body>, bs': seq<Body>)
    requires bs <= bs'
    ensures AnswersIn(bs) <= AnswersIn(bs')
    decreases |bs'|
  {
    if bs != bs' { AnswersPrefix(bs, bs'[..|bs'| - 1]); }
  }

  lemma HoldsNothing(g: Runnable, log: seq<Record>, runID: string, s: State, rec: Recorder)
    requires g.Wired()
    ensures Held(g, log, runID, Failed(s, CheckpointError), rec)
  {}

  lemma {:induction false} Ends(g: Runnable, init: State, log: seq<Record>, runID: string, res: Outcome, rec: Recorder)
    requires g.Wired() && Living(g, init, log) && Held(g, log, runID, res, rec) && res.Finished?
    ensures g.Next(START, init).Some? && Abs(log) == End(g, init, Given(log))
    ensures Abs(log).state == res.state && Abs(log).path == rec.path
  {
    hide Reachable, OnlyAnswered, ReplayLog, Abs, MatchesReference;
    LivingEnds(g, init, log, res);
  }
}
