/** The one-line view of a run that CheckpointStore.List shows
    (graph/checkpoint.go, Summarize), and that it tells what Recover will do. */
module Summary {
  import opened GraphModel
  import opened RunLog
  import opened Runtime
  import opened Ideal
  import opened LogShape
  import Engine

  datatype Status = Running | Crashed | Paused | Done | Failed

  datatype RunSummary = RunSummary(status: Status, lastNode: string, next: string, commits: nat, cost: real,
                                   question: string, err: string)

  const BLANK := RunSummary(Crashed, "", "", 0, 0.0, "", "")

  function Fold(s: RunSummary, b: Body): RunSummary {
    match b
    case RunStart(_, _, nx, _) => s.(next := nx)
    case NodeCommit(n, _, _, _, nx, c) => s.(commits := s.commits + 1, lastNode := n, next := nx, cost := s.cost + c)
    case Fork(_, _, _, nx, _) => s.(next := nx)
    case Interrupt(_, _, _, _, c) => s.(cost := s.cost + c)
    case _ => s
  }

  function Scan(recs: seq<Record>): RunSummary {
    if recs == [] then BLANK else Fold(Scan(recs[..|recs| - 1]), recs[|recs| - 1].body)
  }

  /** stale: nothing was written for longer than StaleAfter. */
  function Judge(s: RunSummary, last: Body, stale: bool): RunSummary {
    if last.RunEnd? && last.err == "" then s.(status := Status.Done)
    else if last.RunEnd? then s.(status := Failed, err := last.err)
    else if last.Interrupt? then s.(status := Paused, question := last.question)
    else if stale then s.(status := Crashed)
    else s.(status := Running)
  }

  function SummaryOf(recs: seq<Record>, stale: bool): RunSummary {
    if recs == [] then BLANK else Judge(Scan(recs), recs[|recs| - 1].body, stale)
  }

  method Summarize(recs: seq<Record>, stale: bool) returns (s: RunSummary)
    ensures s == SummaryOf(recs, stale)
    ensures recs == [] ==> s == RunSummary(Crashed, "", "", 0, 0.0, "", "")
    ensures recs != [] ==>
      var b := recs[|recs| - 1].body;
      && (s.status == Status.Done <==> b.RunEnd? && b.err == "")
      && (s.status == Failed <==> b.RunEnd? && b.err != "")
      && (s.status == Paused <==> b.Interrupt?)
      && (s.status == Crashed <==> !b.RunEnd? && !b.Interrupt? && stale)
      && (s.status == Running <==> !b.RunEnd? && !b.Interrupt? && !stale)
      && (b.RunEnd? && b.err != "" ==> s.err == b.err) && (b.Interrupt? ==> s.question == b.question)
  {
    s := BLANK;
    if recs == [] { return; }
    for i := 0 to |recs|
      invariant s == Scan(recs[..i])
    {
      assert recs[..i + 1][..i] == recs[..i];
      s := Fold(s, recs[i].body);
    }
    assert recs[..|recs|] == recs;
    var last := recs[|recs| - 1].body;
    if last.RunEnd? && last.err == "" {
      s := s.(status := Status.Done);
    } else if last.RunEnd? {
      s := s.(status := Failed, err := last.err);
    } else if last.Interrupt? {
      s := s.(status := Paused, question := last.question);
    } else if stale {
      s := s.(status := Crashed);
    } else {
      s := s.(status := Running);
    }
  }

  ghost predicate Agrees(s: RunSummary, p: Replay, c: Config) {
    && s.next == p.next
    && s.commits == |c.commits|
    && (c.commits != [] ==> s.lastNode == c.commits[|c.commits| - 1].node)
    && s.cost == TotalCost(p.steps)
  }

  lemma AgreesAfter(g: Runnable, s: RunSummary, p: Replay, c: Config, t: Tail, r: Record)
    requires g.Wired() && LegalAfter(g, p, t, r.body) && Agrees(s, p, c)
    ensures Agrees(Fold(s, r.body), Apply(p, r), Advance(c, AsSeq(p.answer), r.body))
  {
    if r.body.NodeCommit? || r.body.Interrupt? {
      var p' := Apply(p, r);
      assert p'.steps[..|p.steps|] == p.steps;
    }
  }

  lemma {:induction false} ScanAgrees(g: Runnable, log: seq<Record>)
    requires g.Wired() && Reachable(g, log) && log != []
    ensures Agrees(Scan(log), ReplayLog(log), Abs(log))
  {
    hide Runnable.Wired;
    var prev, r := log[..|log| - 1], log[|log| - 1];
    if prev == [] {
      assert log == [r];
    } else {
      ScanAgrees(g, prev);
      AgreesAfter(g, Scan(prev), ReplayLog(prev), Abs(prev), TailOf(prev), r);
    }
  }

  predicate EndsAs(p: Replay, b: Body) {
    && (p.Finished() <==> b.RunEnd? && b.err == "")
    && (p.Waiting() <==> b.Interrupt?)
    && (b.Interrupt? ==> p.pending.value.question == b.question)
    && (p.ended <==> b.RunEnd?) && (b.RunEnd? ==> p.endErr == b.err)
  }

  lemma EndsAsAfter(g: Runnable, p: Replay, t: Tail, r: Record)
    requires g.Wired() && LegalAfter(g, p, t, r.body) && EndsAs(p, t.last)
    ensures EndsAs(Apply(p, r), r.body)
  {}

  lemma {:induction false} LastRecordTells(g: Runnable, log: seq<Record>)
    requires g.Wired() && Reachable(g, log) && log != []
    ensures EndsAs(ReplayLog(log), log[|log| - 1].body)
  {
    hide Runnable.Wired;
    var prev := log[..|log| - 1];
    if prev == [] {
      assert ReplayLog(prev) == EMPTY;
    } else {
      LastRecordTells(g, prev);
      EndsAsAfter(g, ReplayLog(prev), TailOf(prev), log[|log| - 1]);
    }
  }

  /** On every reachable log the summary says done exactly when Recover does no
      work, paused exactly when Recover hands out the question, with that
      question, and otherwise Recover restarts a node; its cost, next node, last
      node and number of commits are those of the run that replayLog restores. */
  lemma {:induction false} SummaryTellsRecover(g: Runnable, log: seq<Record>, stale: bool)
    requires g.Wired() && Reachable(g, log) && log != []
    ensures var s, p, c := SummaryOf(log, stale), ReplayLog(log), Abs(log);
      && (s.status == Status.Done <==> p.Finished())
      && (s.status == Paused <==> p.Waiting())
      && (s.status == Paused ==> s.question == p.pending.value.question)
      && (s.status == Failed <==> p.ended && p.endErr != "") && (s.status == Failed ==> s.err == p.endErr)
      && (s.status == Crashed || s.status == Running <==> !p.ended && !p.Waiting())
      && (s.status == Crashed ==> stale) && (s.status == Running ==> !stale)
      && s.next == p.next && FirstStep(log) + s.commits == p.step && s.commits == |c.commits|
      && s.cost == TotalCost(p.steps)
      && (c.commits != [] ==> s.lastNode == c.commits[|c.commits| - 1].node)
  {
    hide Runnable.Wired, Abs, Scan;
    ScanAgrees(g, log);
    LastRecordTells(g, log);
    CommitsFormChain(g, log);
    ReplayRestores(g, log);
  }

  // ----- sessions -----

  predicate SessionSince(log: seq<Record>, j: nat) {
    && j < |log| && log[j].body.Session?
    && forall m | j < m < |log| :: !log[m].body.NodeCommit? && !log[m].body.Interrupt? && !log[m].body.Fork?
  }

  lemma SessionAfter(p: Replay, r: Record)
    ensures var p', b := Apply(p, r), r.body;
      && (b.Session? ==> p'.sessNode == b.node && p'.sessStep == b.step && p'.sessID == b.id)
      && (p'.sessID != "" && !b.Session? ==>
            p'.sessID == p.sessID && p'.sessNode == p.sessNode && p'.sessStep == p.sessStep)
      && (p'.sessID != "" && !b.Session? ==> !b.NodeCommit? && !b.Interrupt? && !b.Fork?)
  {}

  /** The session that replay hands to a recovered node was logged by an attempt
      at that very execution, after everything that is committed, paused or
      forked. */
  lemma {:induction false} SessionIsOfThisExecution(g: Runnable, log: seq<Record>)
    requires g.Wired() && Reachable(g, log) && ReplayLog(log).sessID != ""
    ensures var p := ReplayLog(log);
      p.sessNode == p.next && p.sessStep == p.step + 1 &&
      exists j: nat | SessionSince(log, j) :: log[j].body == Session(p.sessNode, p.sessStep, p.sessID)
  {
    hide Runnable.Wired, Apply, LegalAfter, Reachable;
    var prev, r := log[..|log| - 1], log[|log| - 1];
    ReachablePrefix(g, log, |log| - 1);
    assert log == prev + [r];
    ReachableIsConsistent(g, log);
    SessionAfter(ReplayLog(prev), r);
    if r.body.Session? {
      assert SessionSince(log, |log| - 1);
    } else {
      SessionIsOfThisExecution(g, prev);
      var p := ReplayLog(prev);
      var j: nat :| SessionSince(prev, j) && prev[j].body == Session(p.sessNode, p.sessStep, p.sessID);
      assert SessionSince(log, j);
    }
  }

  /** No session was logged later. */
  predicate LastSession(log: seq<Record>, j: nat) {
    SessionSince(log, j) && forall m | j < m < |log| :: !log[m].body.Session?
  }

  /** Recover hands a session over exactly if one was logged after everything that
      is committed, paused or forked, and then the last of them. */
  lemma {:induction false} RecoverHandsSession(g: Runnable, log: seq<Record>)
    requires g.Wired() && Reachable(g, log) && log != []
    ensures var p, b := ReplayLog(log), Engine.RecoverRecord(ReplayLog(log));
      && b.Recover? && b.node == p.next && b.step == p.step + 1 && b.err == p.endErr
      && (b.session != "" <==> exists j: nat :: LastSession(log, j))
      && (forall j: nat | LastSession(log, j) :: log[j].body == Session(p.next, p.step + 1, b.session))
  {
    hide Runnable.Wired, Apply, Reachable, ReplayLog, SessionSince;
    SessionIsLast(g, log);
    ReachableIsConsistent(g, log);
  }

  lemma {:induction false} SessionNow(g: Runnable, log: seq<Record>, r: Record)
    requires g.Wired() && Legal(g, log, r)
    ensures var p, p', b := ReplayLog(log), Apply(ReplayLog(log), r), r.body;
      if b.Session? then b == Session(p'.sessNode, p'.sessStep, p'.sessID) && b.id != ""
      else if b.NodeCommit? || b.Interrupt? || b.Fork? then p'.sessID == ""
      else p'.sessID == p.sessID && p'.sessNode == p.sessNode && p'.sessStep == p.sessStep
  {}

  lemma {:induction false} SessionIsLast(g: Runnable, log: seq<Record>)
    requires g.Wired() && Reachable(g, log)
    ensures var p := ReplayLog(log);
      && (p.sessID != "" <==> exists j: nat :: LastSession(log, j))
      && (forall j: nat | LastSession(log, j) :: log[j].body == Session(p.sessNode, p.sessStep, p.sessID))
  {
    hide Runnable.Wired, Apply, LegalAfter, Reachable;
    if log != [] {
      var n := |log| - 1;
      var prev, r := log[..n], log[n];
      ReachablePrefix(g, log, n);
      assert log == prev + [r];
      SessionIsLast(g, prev);
      ReplaySnoc(prev, r);
      SessionNow(g, prev, r);
      hide ReplayLog;
      if r.body.Session? {
        assert LastSession(log, n);
        assert forall j: nat | LastSession(log, j) :: j == n;
      } else {
        forall j: nat ensures LastSession(log, j)
            <==> LastSession(prev, j) && !r.body.NodeCommit? && !r.body.Interrupt? && !r.body.Fork?
        {
          assert j < n ==> prev[j] == log[j];
          assert forall m | 0 <= m < n :: prev[m] == log[m];
        }
      }
    }
  }
}
