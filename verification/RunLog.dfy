/** The durable log of a run (graph/checkpoint.go) and its replay
    (graph/durable.go). A log is Legal when each record is one that Run,
    Resume, Recover or Fork may append to what is already there; Engine proves
    that they append no other. */
module RunLog {
  import opened GraphModel

  /** The fields of a record that belong to its kind. */
  datatype Body =
    | RunStart(topoHash: string, state: State, next: string, step: nat)
    | NodeStart(node: string, step: nat)
    | Session(node: string, step: nat, id: string)
    | NodeCommit(node: string, step: nat, attempt: nat, state: State, next: string, cost: real)
    | Edge(from: string, to: string, step: nat)
    | Interrupt(node: string, step: nat, question: string, state: State, cost: real)
    | Resume(node: string, step: nat, answer: string)
    | Recover(node: string, step: nat, err: string, session: string)
    | Fork(fromRun: string, fromSeq: nat, state: State, next: string, step: nat)
    | RunEnd(state: State, err: string)

  datatype Record = Record(seq_: nat, body: Body)

  datatype Pending = Pending(node: string, step: nat, question: string)

  datatype StepRec = StepRec(node: string, parent: string, cost: real, paused: bool, question: string)

  datatype Replay = Replay(
    started: bool,
    topoHash: string,
    state: State,
    next: string,
    step: nat,
    steps: seq<StepRec>,
    path: seq<string>,
    last: nat,
    ended: bool,
    endErr: string,
    pending: Option<Pending>,
    answer: Option<string>,
    sessNode: string,
    sessStep: nat,
    sessID: string)
  {
    /** run_end without an error is the last record. */
    predicate Finished() {
      ended && endErr == ""
    }

    /** A question is pending that nobody has answered. */
    predicate Waiting() {
      pending.Some? && answer.None?
    }
  }

  const EMPTY := Replay(false, "", "", "", 0, [], [], 0, false, "", None, None, "", 0, "")

  function Apply(p0: Replay, r: Record): Replay {
    var p := p0.(last := r.seq_, ended := r.body.RunEnd? && p0.ended);
    match r.body
    case RunStart(h, s, nx, k) =>
      p.(started := true, topoHash := if p.started then p.topoHash else h, state := s, next := nx, step := k)
    case Session(n, k, id) => p.(sessNode := n, sessStep := k, sessID := id)
    case NodeCommit(n, k, _, s, nx, c) =>
      p.(state := s, next := nx, step := k, steps := p.steps + [StepRec(n, "", c, false, "")],
         path := p.path + [n], pending := None, answer := None, sessID := "")
    case Fork(_, _, s, nx, k) =>
      p.(state := s, next := nx, step := k, pending := None, answer := None, sessID := "")
    case Interrupt(n, k, q, s, c) =>
      p.(state := s, steps := p.steps + [StepRec(n, "", c, true, q)], path := p.path + [n],
         pending := Some(Pending(n, k, q)), answer := None, sessID := "")
    case Resume(_, _, a) => if p.pending.Some? then p.(answer := Some(a)) else p
    case RunEnd(s, err) => p.(ended := true, endErr := err, state := if err == "" then s else p.state)
    case _ => p
  }

  function ReplayLog(recs: seq<Record>): Replay {
    if recs == [] then EMPTY else Apply(ReplayLog(recs[..|recs| - 1]), recs[|recs| - 1])
  }

  lemma {:induction false} ReplaySnoc(recs: seq<Record>, r: Record)
    ensures ReplayLog(recs + [r]) == Apply(ReplayLog(recs), r)
  {
    assert (recs + [r])[..|recs|] == recs;
  }

  /** replayLog: one pass over the records; None is "no run_start record". */
  method ReplayRecords(recs: seq<Record>) returns (p: Option<Replay>)
    ensures p == if ReplayLog(recs).started then Some(ReplayLog(recs)) else None
  {
    var acc := EMPTY;
    for i := 0 to |recs|
      invariant acc == ReplayLog(recs[..i])
    {
      assert recs[..i + 1] == recs[..i] + [recs[i]];
      ReplaySnoc(recs[..i], recs[i]);
      acc := Apply(acc, recs[i]);
    }
    assert recs[..|recs|] == recs;
    p := if acc.started then Some(acc) else None;
  }

  // ----- which record may come next -----

  /** Node n is the one to execute next, as execution k. */
  predicate InFlight(g: Runnable, p: Replay, n: string, k: nat) {
    && p.started && !p.Finished() && !p.Waiting()
    && n == p.next && g.Steppable(n) && k == p.step + 1 && p.step < g.maxSteps
  }

  predicate ForkPoint(b: Body) {
    b.NodeCommit? || b.RunStart? || b.Fork?
  }

  /** The question of a checkpoint that this store has not seen before. */
  const IMPORTED := "(checkpoint imported)"

  /** The log begins with a checkpoint from elsewhere. */
  predicate Imported(log: seq<Record>) {
    |log| >= 2 && log[1].body.Interrupt?
  }

  /** With so many records the run proper begins. */
  function Origin(log: seq<Record>): nat {
    if Imported(log) then 2 else 1
  }

  /** How a non-empty log ends: its last record, and the execution that has been
      started and not concluded, if there is one; and how it began. */
  datatype Tail = Tail(last: Body, open: Option<(string, nat)>, imported: bool)

  function OpenAfter(open: Option<(string, nat)>, b: Body): Option<(string, nat)> {
    match b
    case NodeStart(n, k) => Some((n, k))
    case Session(_, _, _) => open
    case _ => None
  }

  function OpenNode(log: seq<Record>): Option<(string, nat)> {
    if log == [] then None else OpenAfter(OpenNode(log[..|log| - 1]), log[|log| - 1].body)
  }

  function TailOf(log: seq<Record>): Tail
    requires log != []
  {
    Tail(log[|log| - 1].body, OpenNode(log), Imported(log))
  }

  lemma {:induction false} OpenSnoc(log: seq<Record>, r: Record)
    ensures OpenNode(log + [r]) == OpenAfter(OpenNode(log), r.body)
  {
    assert (log + [r])[..|log|] == log;
  }

  // ----- what callers put into a log -----

  /** A record that comes from a caller of Resume or Fork, not from the run: an
      answer, a fork, or an imported checkpoint. */
  predicate Steers(log: seq<Record>, b: Body) {
    b.Resume? || b.Fork? || (b.Interrupt? && |log| == 1)
  }

  function Steered(log: seq<Record>): seq<Body> {
    if log == [] then []
    else
      var prev, b := log[..|log| - 1], log[|log| - 1].body;
      Steered(prev) + if Steers(prev, b) then [b] else []
  }

  lemma {:induction false} SteeredSnoc(log: seq<Record>, r: Record)
    ensures Steered(log + [r]) == Steered(log) + if Steers(log, r.body) then [r.body] else []
  {
    assert (log + [r])[..|log|] == log;
  }

  lemma {:induction false} SteeredSince(log: seq<Record>, i: nat)
    requires i <= |log|
    ensures Steered(log[..i]) <= Steered(log)
    ensures Steered(log[..i]) == Steered(log) ==> forall j | i <= j < |log| :: !Steers(log[..j], log[j].body)
  {
    if i == |log| {
      assert log[..i] == log;
    } else {
      var prev := log[..|log| - 1];
      SteeredSince(prev, i);
      assert prev[..i] == log[..i];
      assert forall j | 0 <= j <= |prev| :: prev[..j] == log[..j];
    }
  }

  function AnswersIn(bs: seq<Body>): seq<string> {
    if bs == [] then []
    else AnswersIn(bs[..|bs| - 1]) + if bs[|bs| - 1].Resume? then [bs[|bs| - 1].answer] else []
  }

  lemma {:induction false} AnswersSnoc(bs: seq<Body>, b: Body)
    ensures AnswersIn(bs + [b]) == AnswersIn(bs) + if b.Resume? then [b.answer] else []
  {
    assert (bs + [b])[..|bs|] == bs;
  }

  /** The answers that a log holds, in the order they were given. */
  function Given(log: seq<Record>): seq<string> {
    AnswersIn(Steered(log))
  }

  /** b may follow a non-empty log that replays to p and ends in t. */
  ghost predicate LegalAfter(g: Runnable, p: Replay, t: Tail, b: Body)
    requires g.Wired()
  {
    match b
    case RunStart(_, _, _, _) => false
    case NodeStart(n, k) => InFlight(g, p, n, k)
    case Session(n, k, id) => InFlight(g, p, n, k) && t.open == Some((n, k)) && id != ""
    case NodeCommit(n, k, att, s, nx, _) =>
      && InFlight(g, p, n, k) && t.open == Some((n, k))
      && g.Eval(n, k, p.state, p.answer) == Done(s)
      && g.Next(n, s) == Some(nx)
      && (if t.imported then 0 < att else att == multiset(p.path)[n] + 1)
    case Edge(from, to, k) =>
      t.last.NodeCommit? && from == t.last.node && to == t.last.next && k == t.last.step
    case Interrupt(n, k, q, s, c) =>
      || (InFlight(g, p, n, k) && t.open == Some((n, k)) && g.Eval(n, k, p.state, p.answer) == Ask(s, q))
      || (t.last.RunStart? && g.Steppable(n) && n == p.next && k == p.step + 1
          && q == IMPORTED && s == p.state && c == 0.0)
    case Resume(n, k, _) => p.pending.Some? && n == p.pending.value.node && k == p.pending.value.step
    case Recover(n, k, err, sess) =>
      && p.started && !p.Finished() && !p.Waiting() && n == p.next && k == p.step + 1 && err == p.endErr
      && (sess != "" ==> sess == p.sessID && p.sessNode == n && p.sessStep == k)
    case Fork(_, at, _, nx, k) => ForkPoint(t.last) && at == p.last && nx == p.next && k == p.step
    case RunEnd(s, err) =>
      && p.started && !p.Finished() && !p.Waiting()
      && (err == "" ==> p.next == END && s == p.state)
  }

  /** The run begins at Start, not at a checkpoint's node. */
  predicate FromStart(g: Runnable, b: Body) {
    b.RunStart? && b.step == 0 && g.Next(START, b.state) == Some(b.next)
  }

  ghost predicate Legal(g: Runnable, log: seq<Record>, r: Record)
    requires g.Wired()
  {
    && r.seq_ == |log| + 1
    && if log == [] then r.body.RunStart? && (FromStart(g, r.body) || g.Steppable(r.body.next))
       else LegalAfter(g, ReplayLog(log), TailOf(log), r.body)
  }

  /** Every log that Run, Resume, Recover and Fork can leave behind, however
      their calls were cut short. */
  ghost predicate Reachable(g: Runnable, log: seq<Record>)
    requires g.Wired()
  {
    log == [] ||
    (Reachable(g, log[..|log| - 1]) && Legal(g, log[..|log| - 1], log[|log| - 1]))
  }

  lemma {:induction false} ReachableSnoc(g: Runnable, log: seq<Record>, r: Record)
    requires g.Wired() && Reachable(g, log) && Legal(g, log, r)
    ensures Reachable(g, log + [r])
    ensures ReplayLog(log + [r]) == Apply(ReplayLog(log), r)
  {
    assert (log + [r])[..|log|] == log;
  }

  lemma {:induction false} ReachablePrefix(g: Runnable, log: seq<Record>, i: nat)
    requires g.Wired() && Reachable(g, log) && i <= |log|
    ensures Reachable(g, log[..i])
    ensures i < |log| ==> Legal(g, log[..i], log[i]) && log[..i + 1] == log[..i] + [log[i]]
    decreases |log|
  {
    if i == |log| {
      assert log[..i] == log;
    } else {
      var prev := log[..|log| - 1];
      ReachablePrefix(g, prev, i);
      assert prev[..i] == log[..i];
      if i < |prev| { assert prev[..i + 1] == log[..i + 1]; }
    }
  }

  /** What replay can rely on after any reachable history. */
  predicate Consistent(g: Runnable, p: Replay) {
    && p.started
    && (p.next == END || g.Steppable(p.next))
    && (p.pending.Some? ==> p.pending.value.node == p.next && p.pending.value.step == p.step + 1
                            && g.Steppable(p.next))
    && (p.answer.Some? ==> p.pending.Some?)
    && (p.Finished() ==> p.next == END && p.pending.None?)
    && |p.path| == |p.steps|
    && (p.sessID != "" ==> p.sessNode == p.next && p.sessStep == p.step + 1)
  }

  lemma ConsistentAfter(g: Runnable, p: Replay, t: Tail, r: Record)
    requires g.Wired() && Consistent(g, p) && LegalAfter(g, p, t, r.body)
    ensures Consistent(g, Apply(p, r))
  {
    if r.body.NodeCommit? {
      g.NextStaysWired(r.body.node, r.body.state);
    }
  }

  lemma {:induction false} ReachableIsConsistent(g: Runnable, log: seq<Record>)
    requires g.Wired() && Reachable(g, log)
    ensures ReplayLog(log).last == |log|
    ensures log != [] ==> Consistent(g, ReplayLog(log))
  {
    if log != [] {
      var prev, r := log[..|log| - 1], log[|log| - 1];
      ReachableIsConsistent(g, prev);
      if prev == [] {
        if FromStart(g, r.body) { g.NextStaysWired(START, r.body.state); }
      } else {
        ConsistentAfter(g, ReplayLog(prev), TailOf(prev), r);
      }
    }
  }
}
