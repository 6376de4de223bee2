/** The fleet scheduler (fleet/tasklist.go, fleet/fleet.go): workers that claim
    tasks from a shared queue, in any interleaving of their critical sections.
    A worker waits on the condition variable until a broadcast. */
module Fleet {
  import opened GraphModel

  datatype Task = Task(id: string, dependsOn: seq<string>)

  datatype Why = Cancelled | Capped | Drained

  /** What a worker does next: look at the context, look at the spend cap, claim,
      be woken, run its task and emit the result, complete it; or nothing. */
  datatype Phase = Top | Capping | Claiming | Waiting | Running(id: string) | Emitted(id: string, ok: bool)
    | Exited(why: Why)
  {
    predicate Active() {
      Running? || Emitted?
    }
  }

  /** What a worker does in its phase. Which ready task the map yields, how the
      task ends and what it cost are not the worker's choice. */
  datatype Action = Look | Check | Take(id: string) | Leave | Wait | Finish(ok: bool, cost: real) | Report

  datatype Result = Result(id: string, ok: bool, skipped: bool)

  /** The shared state, the workers, and some history: holder tells which worker
      claimed a task, late how many a worker claimed after the cap was reached. */
  datatype Pool = Pool(
    all: map<string, Task>,
    cap: Option<real>,
    pending: map<string, Task>,
    succeed: map<string, bool>,
    running: int,
    phase: seq<Phase>,
    results: seq<Result>,
    spent: real,
    cancelled: bool,
    holder: map<string, nat>,
    late: seq<nat>)
  {
    predicate Over() {
      cap.Some? && spent >= cap.value
    }

    predicate Ready(id: string)
      requires id in all
    {
      forall d | d in all[id].dependsOn :: d in succeed && succeed[d]
    }

    predicate NoneReady() {
      forall id | id in pending && id in all :: !Ready(id)
    }

    predicate Enabled(w: nat) {
      w < |phase| && !phase[w].Waiting? && !phase[w].Exited?
    }

    // ----- the critical sections -----

    function Move(w: nat, to: Phase): Pool
      requires w < |phase|
    {
      this.(phase := phase[w := to])
    }

    function Claim(w: nat, id: string): Pool
      requires w < |phase| == |late| && id in pending
    {
      this.(pending := pending - {id}, running := running + 1, phase := phase[w := Running(id)],
            holder := holder[id := w], late := late[w := late[w] + if Over() then 1 else 0])
    }

    function Drain(w: nat): Pool
      requires w < |phase|
    {
      this.(phase := Woken(phase)[w := Exited(Drained)])
    }

    function Emit(w: nat, ok: bool, cost: real): Pool
      requires w < |phase| && phase[w].Running?
    {
      this.(spent := spent + cost, results := results + [Result(phase[w].id, ok, false)],
            phase := phase[w := Emitted(phase[w].id, ok)])
    }

    function Complete(w: nat): Pool
      requires w < |phase| && phase[w].Emitted?
    {
      this.(running := running - 1, succeed := succeed[phase[w].id := phase[w].ok], phase := Woken(phase)[w := Top])
    }

    predicate May(w: nat, a: Action) {
      w < |phase| == |late| &&
      match a
      case Look => phase[w].Top?
      case Check => phase[w].Capping?
      case Take(id) => phase[w].Claiming? && id in pending && id in all && Ready(id)
      case Leave => phase[w].Claiming? && NoneReady() && (pending == map[] || running == 0)
      case Wait => phase[w].Claiming? && NoneReady() && pending != map[] && running != 0
      case Finish(_, cost) => phase[w].Running? && cost >= 0.0
      case Report => phase[w].Emitted?
    }

    function Do(w: nat, a: Action): Pool
      requires May(w, a)
    {
      match a
      case Look => Move(w, if cancelled then Exited(Cancelled) else Capping)
      case Check => Move(w, if Over() then Exited(Capped) else Claiming)
      case Take(id) => Claim(w, id)
      case Leave => Drain(w)
      case Wait => Move(w, Waiting)
      case Finish(ok, cost) => Emit(w, ok, cost)
      case Report => Complete(w)
    }

    // ----- what stays true -----

    ghost predicate Bookkeeping() {
      && |late| == |phase|
      && (forall id | id in pending :: id in all && pending[id] == all[id] && id !in holder)
      && (forall id | id in all :: id in pending || id in holder)
      && (forall id | id in holder :: id in all)
      && (forall id | id in succeed :: id in holder)
      && running == ActiveCount(phase)
    }

    /** A claimed task is completed, or its worker is at it. */
    ghost predicate Held() {
      && (forall id | id in holder && id !in succeed ::
            holder[id] < |phase| && phase[holder[id]].Active() && phase[holder[id]].id == id)
      && (forall w: nat | w < |phase| && phase[w].Active() ::
            phase[w].id in holder && phase[w].id !in succeed && holder[phase[w].id] == w)
    }

    /** What has a result: a task that is completed, or emitted and about to be. */
    predicate Out(id: string) {
      id in succeed
      || (id in holder && holder[id] < |phase| && phase[holder[id]] in {Emitted(id, true), Emitted(id, false)})
    }

    /** Every task that is out has exactly one result, and no other has any. */
    ghost predicate Reported() {
      && (forall i, j | 0 <= i < j < |results| :: results[i].id != results[j].id)
      && (forall r | r in results :: !r.skipped && Out(r.id))
      && (forall id | id in succeed :: Result(id, succeed[id], false) in results)
      && (forall w: nat | w < |phase| && phase[w].Emitted? :: Result(phase[w].id, phase[w].ok, false) in results)
    }

    /** A task was claimed only after all it depends on had succeeded. */
    ghost predicate DependenciesFirst() {
      forall id | id in holder && id in all :: Ready(id)
    }

    /** A task has a result only after all it depends on have a good one. */
    ghost predicate ResultsFollow() {
      forall i, d | 0 <= i < |results| && results[i].id in all && d in all[results[i].id].dependsOn ::
        Result(d, true, false) in results[..i]
    }

    ghost predicate NobodyWaitsInVain() {
      (exists w: nat :: w < |phase| && phase[w].Waiting?) ==> running > 0
    }

    ghost predicate DrainedForGood() {
      (exists w: nat :: w < |phase| && phase[w] == Exited(Drained)) ==>
        NoneReady() && (pending == map[] || running == 0)
    }

    ghost predicate CapHolds() {
      forall w: nat | w < |phase| && w < |late| ::
        && late[w] <= 1
        && (!Over() || phase[w].Claiming? || phase[w].Waiting? ==> late[w] == 0)
    }

    ghost predicate ExitsExplained() {
      && (forall w: nat | w < |phase| && phase[w] == Exited(Cancelled) :: cancelled)
      && (forall w: nat | w < |phase| && phase[w] == Exited(Capped) :: Over())
    }

    ghost predicate Inv() {
      Bookkeeping() && Held() && Reported() && DependenciesFirst() && ResultsFollow() && NobodyWaitsInVain()
      && DrainedForGood() && CapHolds() && ExitsExplained()
    }
  }

  /** A broadcast. */
  function Woken(phase: seq<Phase>): seq<Phase> {
    seq(|phase|, w requires 0 <= w < |phase| => if phase[w].Waiting? then Claiming else phase[w])
  }

  function ActiveCount(phase: seq<Phase>): nat {
    if phase == [] then 0
    else ActiveCount(phase[..|phase| - 1]) + if phase[|phase| - 1].Active() then 1 else 0
  }

  function One(p: Phase): nat {
    if p.Active() then 1 else 0
  }

  lemma {:induction false} CountMove(phase: seq<Phase>, w: nat, to: Phase)
    requires w < |phase|
    ensures ActiveCount(phase[w := to]) == ActiveCount(phase) - One(phase[w]) + One(to)
  {
    var n := |phase| - 1;
    if w < n {
      CountMove(phase[..n], w, to);
      assert phase[w := to][..n] == phase[..n][w := to];
    } else {
      assert phase[w := to][..n] == phase[..n];
    }
  }

  lemma {:induction false} CountWoken(phase: seq<Phase>)
    ensures ActiveCount(Woken(phase)) == ActiveCount(phase)
  {
    if phase != [] {
      CountWoken(phase[..|phase| - 1]);
      assert Woken(phase)[..|phase| - 1] == Woken(phase[..|phase| - 1]);
    }
  }

  lemma {:induction false} SomebodyActive(phase: seq<Phase>)
    ensures ActiveCount(phase) > 0 <==> exists w: nat :: w < |phase| && phase[w].Active()
  {
    if phase != [] {
      var init := phase[..|phase| - 1];
      SomebodyActive(init);
      if ActiveCount(init) > 0 {
        var w: nat :| w < |init| && init[w].Active();
        assert phase[w].Active();
      }
      if w: nat :| w < |phase| && phase[w].Active() && w < |init| { assert init[w].Active(); }
    }
  }

  lemma CountAfter(p: Pool, w: nat, to: Phase)
    requires w < |p.phase|
    ensures ActiveCount(p.phase[w := to]) == ActiveCount(p.phase) - One(p.phase[w]) + One(to)
    ensures ActiveCount(Woken(p.phase)[w := to]) == ActiveCount(p.phase) - One(p.phase[w]) + One(to)
  {
    CountMove(p.phase, w, to);
    CountWoken(p.phase);
    CountMove(Woken(p.phase), w, to);
  }

  lemma BookkeepingKept(p: Pool, w: nat, a: Action)
    requires p.Bookkeeping() && p.Held() && p.May(w, a)
    ensures p.Do(w, a).Bookkeeping()
  {
    CountAfter(p, w, p.Do(w, a).phase[w]);
  }

  lemma HeldByTake(p: Pool, w: nat, id: string)
    requires p.Bookkeeping() && p.Held() && p.May(w, Take(id))
    ensures p.Claim(w, id).Held()
  {
    hide ActiveCount, Pool.Ready;
  }

  lemma HeldByReport(p: Pool, w: nat)
    requires p.Bookkeeping() && p.Held() && p.May(w, Report)
    ensures p.Complete(w).Held()
  {
    hide ActiveCount, Pool.Ready;
  }

  lemma HeldByFinish(p: Pool, w: nat, ok: bool, cost: real)
    requires p.Held() && p.May(w, Finish(ok, cost))
    ensures p.Emit(w, ok, cost).Held()
  {
    hide ActiveCount, Pool.Ready;
  }

  lemma HeldByMove(p: Pool, w: nat, to: Phase)
    requires p.Held() && w < |p.phase| && !p.phase[w].Active() && !to.Active()
    ensures p.Move(w, to).Held() && p.(phase := Woken(p.phase)[w := to]).Held()
  {}

  lemma HeldKept(p: Pool, w: nat, a: Action)
    requires p.Bookkeeping() && p.Held() && p.May(w, a)
    ensures p.Do(w, a).Held()
  {
    hide ActiveCount, Pool.Ready, Pool.NoneReady, Pool.Over, Pool.Held, Pool.Bookkeeping;
    match a
    case Take(id) => HeldByTake(p, w, id);
    case Report => HeldByReport(p, w);
    case Finish(ok, cost) => HeldByFinish(p, w, ok, cost);
    case _ => HeldByMove(p, w, p.Do(w, a).phase[w]);
  }

  lemma OutAfter(p: Pool, w: nat, a: Action, id: string)
    requires p.Bookkeeping() && p.Held() && p.May(w, a)
    ensures p.Do(w, a).Out(id) <==> p.Out(id) || (a.Finish? && id == p.phase[w].id)
    ensures a.Finish? ==> !p.Out(p.phase[w].id)
  {
    hide ActiveCount;
    match a
    case Take(_) =>
    case Report =>
    case Finish(_, _) =>
    case _ =>
  }

  lemma ReportedByFinish(p: Pool, w: nat, ok: bool, cost: real)
    requires p.Reported() && p.May(w, Finish(ok, cost)) && !p.Out(p.phase[w].id)
    requires forall r | r in p.results :: p.Emit(w, ok, cost).Out(r.id)
    requires p.Emit(w, ok, cost).Out(p.phase[w].id)
    ensures p.Emit(w, ok, cost).Reported()
  {
    hide Pool.Out, Pool.Ready;
    var q := p.Emit(w, ok, cost);
    assert q.results[|p.results|] == Result(p.phase[w].id, ok, false);
    assert forall r | r in p.results :: r in q.results;
  }

  lemma ReportedKept(p: Pool, w: nat, a: Action)
    requires p.Bookkeeping() && p.Held() && p.Reported() && p.May(w, a)
    ensures p.Do(w, a).Reported()
  {
    hide ActiveCount, Pool.Out, Pool.Ready, Pool.Bookkeeping, Pool.NoneReady, Pool.Over;
    var q := p.Do(w, a);
    forall r | r in p.results ensures !r.skipped && q.Out(r.id) { OutAfter(p, w, a, r.id); }
    match a
    case Finish(ok, cost) =>
      OutAfter(p, w, a, p.phase[w].id);
      ReportedByFinish(p, w, ok, cost);
    case _ =>
  }

  lemma DependenciesKept(p: Pool, w: nat, a: Action)
    requires p.Bookkeeping() && p.Held() && p.DependenciesFirst() && p.May(w, a)
    ensures p.Do(w, a).DependenciesFirst()
  {
    hide ActiveCount;
    var q := p.Do(w, a);
    forall id | id in q.holder && id in q.all ensures q.Ready(id) {
      assert p.Ready(id);
    }
  }

  lemma ResultsFollowKept(p: Pool, w: nat, a: Action)
    requires p.Bookkeeping() && p.Held() && p.Reported() && p.DependenciesFirst() && p.ResultsFollow() && p.May(w, a)
    ensures p.Do(w, a).ResultsFollow()
  {
    hide ActiveCount, Pool.Out, Pool.NoneReady, Pool.Over;
    var q := p.Do(w, a);
    if a.Finish? {
      var id := p.phase[w].id;
      assert id in p.holder && id in p.all && p.Ready(id);
      assert q.results[..|p.results|] == p.results;
      forall i, d | 0 <= i < |q.results| && q.results[i].id in q.all && d in q.all[q.results[i].id].dependsOn
        ensures Result(d, true, false) in q.results[..i]
      {
        if i < |p.results| { assert q.results[..i] == p.results[..i]; }
      }
    }
  }

  lemma WaitingKept(p: Pool, w: nat, a: Action)
    requires p.Bookkeeping() && p.Held() && p.NobodyWaitsInVain() && p.May(w, a)
    ensures p.Do(w, a).NobodyWaitsInVain()
  {
    SomebodyActive(p.phase);
    var q := p.Do(w, a);
    if v: nat :| v < |q.phase| && q.phase[v].Waiting? && v != w {
      assert p.phase[v].Waiting?;
    }
  }

  lemma DrainedKept(p: Pool, w: nat, a: Action)
    requires p.Bookkeeping() && p.Held() && p.DrainedForGood() && p.May(w, a)
    ensures p.Do(w, a).DrainedForGood()
  {
    SomebodyActive(p.phase);
    var q := p.Do(w, a);
    if v: nat :| v < |q.phase| && q.phase[v] == Exited(Drained) && v != w {
      assert p.phase[v] == Exited(Drained);
    }
  }

  lemma CapKept(p: Pool, w: nat, a: Action)
    requires p.CapHolds() && p.May(w, a)
    ensures p.Do(w, a).CapHolds()
  {}

  lemma ExitsKept(p: Pool, w: nat, a: Action)
    requires p.ExitsExplained() && p.May(w, a)
    ensures p.Do(w, a).ExitsExplained()
  {}

  /** SAFETY, over every interleaving: each step of each worker keeps all of
      this. */
  lemma StepKeeps(p: Pool, w: nat, a: Action)
    requires p.Inv() && p.May(w, a)
    ensures p.Do(w, a).Inv()
  {
    BookkeepingKept(p, w, a);
    HeldKept(p, w, a);
    ReportedKept(p, w, a);
    DependenciesKept(p, w, a);
    ResultsFollowKept(p, w, a);
    WaitingKept(p, w, a);
    DrainedKept(p, w, a);
    CapKept(p, w, a);
    ExitsKept(p, w, a);
  }

  /** A task is claimed once: what is claimed is no longer pending, and stays with
      the worker that claimed it. */
  lemma ClaimedOnce(p: Pool, w: nat, a: Action)
    requires p.Inv() && p.May(w, a)
    ensures var q := p.Do(w, a);
      && (forall id | id in p.holder :: id in q.holder && q.holder[id] == p.holder[id] && id !in q.pending)
      && (a.Take? ==> a.id !in p.holder && q.holder[a.id] == w && p.Ready(a.id))
      && (!a.Take? ==> q.holder == p.holder && q.pending == p.pending)
  {
    hide ActiveCount, Pool.Out, Pool.Ready;
  }

  lemma CancelKeeps(p: Pool)
    requires p.Inv()
    ensures p.(cancelled := true).Inv()
  {
    var q := p.(cancelled := true);
    assert forall id | id in p.all :: p.Ready(id) <==> q.Ready(id);
    assert forall id :: p.Out(id) <==> q.Out(id);
  }

  // ----- runs of the scheduler -----

  /** One entry of a schedule: worker w does a, or the context is cancelled. */
  datatype Event = Act(w: nat, a: Action) | Cancel

  /** What event e makes of p; None if it cannot happen there. */
  function Moved(p: Pool, e: Event): Option<Pool> {
    match e
    case Act(w, a) => if p.May(w, a) then Some(p.Do(w, a)) else None
    case Cancel => Some(p.(cancelled := true))
  }

  /** What the schedule makes of p. */
  function Ran(p: Pool, sched: seq<Event>): Option<Pool> {
    if sched == [] then Some(p)
    else
      var q := Ran(p, sched[..|sched| - 1]);
      if q.None? then None else Moved(q.value, sched[|sched| - 1])
  }

  lemma {:induction false} RanSnoc(p: Pool, sched: seq<Event>, e: Event)
    requires Ran(p, sched).Some?
    ensures Ran(p, sched + [e]) == Moved(Ran(p, sched).value, e)
  {
    assert (sched + [e])[..|sched|] == sched;
  }

  /** What the tasks of a schedule cost. */
  function CostOf(sched: seq<Event>): real {
    if sched == [] then 0.0
    else
      var e := sched[|sched| - 1];
      CostOf(sched[..|sched| - 1]) + if e.Act? && e.a.Finish? then e.a.cost else 0.0
  }

  /** SAFETY, of whole runs: whatever the schedule, the invariant stays, a claim
      is never taken back, and each cost is counted once. */
  lemma {:induction false} RunKeeps(p: Pool, sched: seq<Event>)
    requires p.Inv() && Ran(p, sched).Some?
    ensures var q := Ran(p, sched).value;
      && q.Inv() && q.all == p.all && q.cap == p.cap && |q.phase| == |p.phase|
      && q.spent == p.spent + CostOf(sched)
      && (forall id | id in p.holder :: id in q.holder && q.holder[id] == p.holder[id])
      && p.results <= q.results
  {
    hide Pool.Inv;
    if sched != [] {
      var init, e := sched[..|sched| - 1], sched[|sched| - 1];
      RunKeeps(p, init);
      var q := Ran(p, init).value;
      match e
      case Act(w, a) =>
        StepKeeps(q, w, a);
        ClaimedOnce(q, w, a);
        SameBatch(q, w, a);
      case Cancel => CancelKeeps(q);
    }
  }

  lemma {:induction false} RanPrefix(p: Pool, sched: seq<Event>, i: nat)
    requires Ran(p, sched).Some? && i <= |sched|
    ensures Ran(p, sched[..i]).Some?
    ensures i < |sched| ==>
      && Ran(p, sched[..i + 1]) == Moved(Ran(p, sched[..i]).value, sched[i])
      && Moved(Ran(p, sched[..i]).value, sched[i]).Some?
    decreases |sched|
  {
    if i == |sched| {
      assert sched[..i] == sched;
    } else {
      var init := sched[..|sched| - 1];
      RanPrefix(p, init, i);
      assert init[..i] == sched[..i];
      if i < |init| { assert init[..i + 1] == sched[..i + 1]; } else { assert sched[..i + 1] == sched; }
    }
  }

  /** Nothing gets cheaper. */
  lemma {:induction false} CostGrows(p: Pool, sched: seq<Event>, i: nat, j: nat)
    requires Ran(p, sched).Some? && i <= j <= |sched|
    ensures CostOf(sched[..i]) <= CostOf(sched[..j])
    decreases j
  {
    hide Ran, Pool.Ready, Pool.NoneReady;
    if i < j {
      CostGrows(p, sched, i, j - 1);
      RanPrefix(p, sched, j - 1);
      assert sched[..j][..j - 1] == sched[..j - 1];
    }
  }

  /** What a schedule costs is what its parts cost, and a finished task costs what
      it does. */
  lemma {:induction false} CostOfParts(a: seq<Event>, b: seq<Event>, w: nat, ok: bool, cost: real)
    ensures CostOf(a + b) == CostOf(a) + CostOf(b) && CostOf([]) == 0.0
    ensures CostOf([Act(w, Finish(ok, cost))]) == cost
  {
    assert [Act(w, Finish(ok, cost))][..0] == [];
    if b == [] {
      assert a + b == a;
    } else {
      CostOfParts(a, b[..|b| - 1], w, ok, cost);
      assert (a + b)[..|a + b| - 1] == a + b[..|b| - 1];
    }
  }

  /** THE CAP. A worker that looks at the cap goes on to claim exactly if the tasks
      finished so far cost less. */
  lemma {:induction false} CheckDecides(p: Pool, sched: seq<Event>, i: nat)
    requires p.Inv() && p.spent == 0.0 && Ran(p, sched).Some? && i < |sched| && sched[i].Act? && sched[i].a.Check?
    ensures Ran(p, sched[..i + 1]).Some?
    ensures var w, q := sched[i].w, Ran(p, sched[..i + 1]).value;
      && w < |q.phase|
      && (q.phase[w] == Claiming <==> p.cap.None? || CostOf(sched[..i]) < p.cap.value)
      && (q.phase[w] == Exited(Capped) <==> p.cap.Some? && CostOf(sched[..i]) >= p.cap.value)
  {
    hide Pool.Inv, CostOf, Ran;
    RanPrefix(p, sched, i);
    RunKeeps(p, sched[..i]);
    var q := Ran(p, sched[..i]).value;
    assert q.May(sched[i].w, Check) && Ran(p, sched[..i + 1]).value == q.Do(sched[i].w, Check);
  }

  /** A worker that looks at the context goes on exactly if it was not cancelled
      so far. */
  lemma {:induction false} LookDecides(p: Pool, sched: seq<Event>, i: nat)
    requires p.Inv() && !p.cancelled && Ran(p, sched).Some? && i < |sched| && sched[i].Act? && sched[i].a.Look?
    ensures Ran(p, sched[..i + 1]).Some?
    ensures var w, q := sched[i].w, Ran(p, sched[..i + 1]).value;
      && w < |q.phase|
      && (q.phase[w] == Capping <==> Cancel !in sched[..i])
      && (q.phase[w] == Exited(Cancelled) <==> Cancel in sched[..i])
  {
    hide Pool.Inv, Ran;
    RanPrefix(p, sched, i);
    CancelledIs(p, sched[..i]);
    var q := Ran(p, sched[..i]).value;
    assert q.May(sched[i].w, Look) && Ran(p, sched[..i + 1]).value == q.Do(sched[i].w, Look);
  }

  lemma {:induction false} CancelledIs(p: Pool, sched: seq<Event>)
    requires !p.cancelled && Ran(p, sched).Some?
    ensures Ran(p, sched).value.cancelled <==> Cancel in sched
  {
    if sched != [] {
      hide Ran, Pool.Ready, Pool.NoneReady, Pool.Do;
      var init, e := sched[..|sched| - 1], sched[|sched| - 1];
      RanPrefix(p, sched, |init|);
      assert sched == init + [e] && sched[..|init| + 1] == sched;
      CancelledIs(p, init);
      if e.Act? { SameBatch(Ran(p, init).value, e.w, e.a); }
    }
  }

  predicate Claims(e: Event, w: nat) {
    e.Act? && e.w == w && e.a.Take?
  }

  /** Of two claims of a worker the first was made below the cap: no worker claims
      two tasks after it is reached. */
  lemma {:induction false} OneLateClaim(p: Pool, sched: seq<Event>, w: nat, i: nat, j: nat)
    requires p.Inv() && p.spent == 0.0 && Ran(p, sched).Some? && p.cap.Some?
    requires i < j < |sched| && Claims(sched[i], w) && Claims(sched[j], w)
    ensures CostOf(sched[..i]) < p.cap.value
  {
    hide Pool.Inv, CostOf, Ran;
    RanPrefix(p, sched, i);
    RunKeeps(p, sched[..i]);
    RanPrefix(p, sched, j);
    RunKeeps(p, sched[..j]);
    var q, q' := Ran(p, sched[..i]).value, Ran(p, sched[..j]).value;
    hide Moved;
    LateClaim(q, sched[i], w);
    ClaimsAt(q', sched[j], w);
    LateStays(p, sched, i + 1, j, w);
  }

  lemma LateClaim(q: Pool, e: Event, w: nat)
    requires Claims(e, w) && Moved(q, e).Some? && q.cap.Some?
    ensures w < |Moved(q, e).value.late|
    ensures q.spent >= q.cap.value ==> Moved(q, e).value.late[w] >= 1
  {}

  lemma ClaimsAt(q: Pool, e: Event, w: nat)
    requires Claims(e, w) && Moved(q, e).Some? && q.Inv()
    ensures w < |q.late| && q.late[w] == 0
  {
    ClaimingIsNotLate(q, w);
  }

  lemma ClaimingIsNotLate(q: Pool, w: nat)
    requires q.Inv() && w < |q.phase| && q.phase[w].Claiming?
    ensures w < |q.late| && q.late[w] == 0
  {}

  lemma {:induction false} LateStays(p: Pool, sched: seq<Event>, i: nat, j: nat, w: nat)
    requires Ran(p, sched).Some? && i <= j <= |sched| && Ran(p, sched[..i]).Some? && w < |Ran(p, sched[..i]).value.late|
    ensures Ran(p, sched[..j]).Some? && w < |Ran(p, sched[..j]).value.late|
    ensures Ran(p, sched[..i]).value.late[w] <= Ran(p, sched[..j]).value.late[w]
    decreases j
  {
    hide Ran, Moved;
    RanPrefix(p, sched, j);
    if i < j {
      LateStays(p, sched, i, j - 1, w);
      RanPrefix(p, sched, j - 1);
      LateMoves(Ran(p, sched[..j - 1]).value, sched[j - 1], w);
    }
  }

  lemma LateMoves(q: Pool, e: Event, w: nat)
    requires Moved(q, e).Some? && w < |q.late|
    ensures w < |Moved(q, e).value.late| && q.late[w] <= Moved(q, e).value.late[w]
  {
    hide Pool.Ready, Pool.NoneReady, Woken;
  }

  predicate AllExited(phase: seq<Phase>) {
    forall w: nat | w < |phase| :: phase[w].Exited?
  }

  /** NO DEADLOCK. While some worker has not exited, some worker can step. */
  lemma SomebodyCanStep(p: Pool)
    requires p.Inv() && !AllExited(p.phase)
    ensures exists w: nat :: p.Enabled(w)
  {
    var v: nat :| v < |p.phase| && !p.phase[v].Exited?;
    if p.phase[v].Waiting? {
      SomebodyActive(p.phase);
      var w: nat :| w < |p.phase| && p.phase[w].Active();
      assert p.Enabled(w);
    } else {
      assert p.Enabled(v);
    }
  }

  lemma EnabledMay(p: Pool, w: nat)
    requires p.Inv() && p.Enabled(w)
    ensures exists a :: p.May(w, a)
  {
    match p.phase[w]
    case Top => assert p.May(w, Look);
    case Capping => assert p.May(w, Check);
    case Claiming =>
      if id :| id in p.pending && id in p.all && p.Ready(id) {
        assert p.May(w, Take(id));
      } else {
        assert p.May(w, Leave) || p.May(w, Action.Wait);
      }
    case Running(_) => assert p.May(w, Finish(true, 0.0));
    case Emitted(_, _) => assert p.May(w, Report);
  }

  // ----- every run ends -----

  function Weight(ph: Phase, n: nat): nat {
    match ph
    case Exited(_) => 0
    case Waiting => n + 1
    case Claiming => n + 2
    case Capping => n + 3
    case Top => n + 4
    case Emitted(_, _) => 2 * n + 5
    case Running(_) => 2 * n + 6
  }

  function Weights(phase: seq<Phase>, n: nat): nat {
    if phase == [] then 0 else Weights(phase[..|phase| - 1], n) + Weight(phase[|phase| - 1], n)
  }

  lemma {:induction false} WeightsMove(phase: seq<Phase>, w: nat, to: Phase, n: nat)
    requires w < |phase|
    ensures Weights(phase[w := to], n) == Weights(phase, n) - Weight(phase[w], n) + Weight(to, n)
  {
    var l := |phase| - 1;
    if w < l {
      WeightsMove(phase[..l], w, to, n);
      assert phase[w := to][..l] == phase[..l][w := to];
    } else {
      assert phase[w := to][..l] == phase[..l];
    }
  }

  lemma {:induction false} WeightsWoken(phase: seq<Phase>, n: nat)
    ensures Weights(Woken(phase), n) <= Weights(phase, n) + |phase|
  {
    if phase != [] {
      WeightsWoken(phase[..|phase| - 1], n);
      assert Woken(phase)[..|phase| - 1] == Woken(phase[..|phase| - 1]);
    }
  }

  /** Claims pay for the work of running a task, and exits and completions for
      the workers they wake. */
  function Fuel(p: Pool): nat {
    (|p.phase| + 5) * |p.pending| + Weights(p.phase, |p.phase|)
  }

  lemma RemoveOne(m: map<string, Task>, id: string)
    requires id in m
    ensures |m - {id}| == |m| - 1
  {
    assert (m - {id}).Keys == m.Keys - {id};
  }

  lemma FuelMove(p: Pool, q: Pool, w: nat, to: Phase)
    requires w < |p.phase| && q.phase == p.phase[w := to] && q.pending == p.pending
    ensures Fuel(q) == Fuel(p) - Weight(p.phase[w], |p.phase|) + Weight(to, |p.phase|)
  {
    WeightsMove(p.phase, w, to, |p.phase|);
  }

  lemma FuelWake(p: Pool, q: Pool, w: nat, to: Phase)
    requires w < |p.phase| && q.phase == Woken(p.phase)[w := to] && q.pending == p.pending && !p.phase[w].Waiting?
    ensures Fuel(q) <= Fuel(p) + |p.phase| - Weight(p.phase[w], |p.phase|) + Weight(to, |p.phase|)
  {
    WeightsWoken(p.phase, |p.phase|);
    WeightsMove(Woken(p.phase), w, to, |p.phase|);
  }

  lemma FuelTake(p: Pool, w: nat, id: string)
    requires p.May(w, Take(id))
    ensures Fuel(p.Claim(w, id)) < Fuel(p)
  {
    var n, q := |p.phase|, p.Claim(w, id);
    WeightsMove(p.phase, w, Running(id), n);
    RemoveOne(p.pending, id);
    assert (n + 5) * |q.pending| == (n + 5) * |p.pending| - (n + 5);
  }

  /** LIVENESS. Each step burns fuel, so every run is over after a bounded number
      of steps: nobody waits forever. */
  lemma StepBurnsFuel(p: Pool, w: nat, a: Action)
    requires p.May(w, a)
    ensures Fuel(p.Do(w, a)) < Fuel(p)
  {
    hide Fuel, Woken, Pool.Ready, Pool.NoneReady, Pool.Over;
    var q := p.Do(w, a);
    match a
    case Take(id) => FuelTake(p, w, id);
    case Leave => FuelWake(p, q, w, Exited(Drained));
    case Report => FuelWake(p, q, w, Top);
    case Finish(ok, cost) => FuelMove(p, q, w, Emitted(p.phase[w].id, ok));
    case Wait => FuelMove(p, q, w, Waiting);
    case Look => FuelMove(p, q, w, if p.cancelled then Exited(Cancelled) else Capping);
    case Check => FuelMove(p, q, w, if p.Over() then Exited(Capped) else Claiming);
  }

  // ----- what a finished run has done -----

  /** Dependencies are known and form no cycle. */
  ghost predicate Ranked(all: map<string, Task>, rank: string -> nat) {
    forall id, d | id in all && d in all[id].dependsOn :: d in all && rank(d) < rank(id)
  }

  lemma {:induction false} EverythingClaimed(p: Pool, rank: string -> nat, id: string)
    requires p.Inv() && Ranked(p.all, rank) && p.running == 0 && p.NoneReady()
    requires forall r | r in p.results :: r.ok
    requires id in p.all
    ensures id in p.succeed && p.succeed[id]
    decreases rank(id)
  {
    forall d | d in p.all[id].dependsOn ensures d in p.succeed && p.succeed[d] {
      EverythingClaimed(p, rank, d);
    }
    assert p.Ready(id);
    assert id in p.holder;
    SomebodyActive(p.phase);
    assert id in p.succeed;
    assert Result(id, p.succeed[id], false) in p.results;
  }

  /** COMPLETENESS. With no cap hit and no cancellation, an acyclic batch without
      failures runs in full. */
  lemma NothingLeft(p: Pool, rank: string -> nat)
    requires p.Inv() && AllExited(p.phase) && |p.phase| > 0 && Ranked(p.all, rank)
    requires !p.cancelled && !p.Over()
    requires forall r | r in p.results :: r.ok
    ensures p.pending == map[]
  {
    SomebodyActive(p.phase);
    NoneReadyAtTheEnd(p);
    if p.pending != map[] {
      var id :| id in p.pending;
      EverythingClaimed(p, rank, id);
    }
  }

  /** Without a cap reached or a cancellation, nobody left while a task was ready. */
  lemma NoneReadyAtTheEnd(p: Pool)
    requires p.Inv() && AllExited(p.phase) && |p.phase| > 0 && !p.cancelled && !p.Over()
    ensures p.NoneReady()
  {
    match p.phase[0].why {
      case Cancelled =>
        assert false;
      case Capped =>
        assert false;
      case Drained =>
    }
  }

  lemma AtTheEnd(p: Pool)
    requires p.Inv() && AllExited(p.phase)
    ensures forall id :: id in p.all <==> id in p.succeed || id in p.pending
    ensures forall id | id in p.succeed :: Result(id, p.succeed[id], false) in p.results
    ensures forall r | r in p.results :: r.id in p.succeed && r.id !in p.pending && !r.skipped
    ensures forall w: nat | w < |p.phase| :: p.late[w] <= 1
  {
    forall r | r in p.results ensures r.id in p.succeed { assert p.Out(r.id); }
  }

  // ----- the code -----

  function ById(tasks: seq<Task>): map<string, Task> {
    if tasks == [] then map[] else ById(tasks[..|tasks| - 1])[tasks[|tasks| - 1].id := tasks[|tasks| - 1]]
  }

  datatype Claimed = Claimed(task: Task) | Nothing | MustWait

  class TaskList {
    var pending: map<string, Task>
    var succeed: map<string, bool>
    var running: int

    constructor (tasks: seq<Task>)
      ensures pending == ById(tasks) && succeed == map[] && running == 0
    {
      pending, succeed, running := map[], map[], 0;
      new;
      for i := 0 to |tasks|
        invariant pending == ById(tasks[..i]) && succeed == map[] && running == 0
      {
        assert tasks[..i + 1][..i] == tasks[..i];
        pending := pending[tasks[i].id := tasks[i]];
      }
      assert tasks[..|tasks|] == tasks;
    }

    predicate DepsDone(t: Task)
      reads this
    {
      forall d | d in t.dependsOn :: d in succeed && succeed[d]
    }

    method Ready(t: Task) returns (ok: bool)
      ensures ok == DepsDone(t)
    {
      for i := 0 to |t.dependsOn|
        invariant forall j | 0 <= j < i :: t.dependsOn[j] in succeed && succeed[t.dependsOn[j]]
      {
        var d := t.dependsOn[i];
        if d !in succeed || !succeed[d] { return false; }
      }
      ok := true;
    }

    /** claim, up to its wait: what one pass under the mutex decides. */
    method TryClaim() returns (c: Claimed)
      modifies this
      ensures succeed == old(succeed)
      ensures match c
        case Claimed(t) =>
          exists id :: id in old(pending) && old(pending)[id] == t && old(DepsDone(t)) &&
                       pending == old(pending) - {id} && running == old(running) + 1
        case Nothing => pending == old(pending) && running == old(running) && (pending == map[] || running == 0)
                        && forall id | id in pending :: !DepsDone(pending[id])
        case MustWait => pending == old(pending) && running == old(running) && pending != map[] && running != 0
                         && forall id | id in pending :: !DepsDone(pending[id])
    {
      var todo := pending.Keys;
      while todo != {}
        invariant pending == old(pending) && succeed == old(succeed) && running == old(running) && todo <= pending.Keys
        invariant forall id | id in pending && id !in todo :: !DepsDone(pending[id])
      {
        var id :| id in todo;
        todo := todo - {id};
        var t := pending[id];
        var ready := Ready(t);
        if ready {
          pending, running := pending - {id}, running + 1;
          return Claimed(t);
        }
      }
      c := if pending == map[] || running == 0 then Nothing else MustWait;
    }

    method Complete(id: string, ok: bool)
      modifies this
      ensures pending == old(pending) && running == old(running) - 1 && succeed == old(succeed)[id := ok]
    {
      running := running - 1;
      succeed := succeed[id := ok];
    }

    method Unfinished() returns (ids: seq<string>)
      ensures forall id :: id in ids <==> id in pending
      ensures forall i, j | 0 <= i < j < |ids| :: ids[i] != ids[j]
    {
      ids := [];
      var todo := pending.Keys;
      while todo != {}
        invariant forall id :: id in ids <==> id in pending && id !in todo
        invariant forall i, j | 0 <= i < j < |ids| :: ids[i] != ids[j]
      {
        var id :| id in todo;
        todo := todo - {id};
        ids := ids + [id];
      }
    }
  }

  /** all holds the tasks by id, of those with the same id the last one. */
  ghost predicate LastOfEach(tasks: seq<Task>, all: map<string, Task>) {
    && (forall i | 0 <= i < |tasks| && (forall j | i < j < |tasks| :: tasks[j].id != tasks[i].id) ::
          tasks[i].id in all && all[tasks[i].id] == tasks[i])
    && (forall id | id in all :: exists t :: t in tasks && t.id == id)
  }

  lemma {:induction false} ByIdIs(tasks: seq<Task>)
    ensures LastOfEach(tasks, ById(tasks))
  {
    if tasks != [] {
      var init, last := tasks[..|tasks| - 1], tasks[|tasks| - 1];
      ByIdIs(init);
      assert tasks == init + [last];
      forall i | 0 <= i < |tasks| && (forall j | i < j < |tasks| :: tasks[j].id != tasks[i].id)
        ensures tasks[i].id in ById(tasks) && ById(tasks)[tasks[i].id] == tasks[i]
      {
        if i < |init| { assert tasks[|init|].id != tasks[i].id && init[i] == tasks[i]; }
      }
      forall id | id in ById(tasks) ensures exists t :: t in tasks && t.id == id {
        if id == last.id {
          assert last in tasks;
        } else {
          var t :| t in init && t.id == id;
          assert t in tasks;
        }
      }
    }
  }

  lemma {:induction false} ByIdIsKeyed(tasks: seq<Task>)
    ensures forall id | id in ById(tasks) :: ById(tasks)[id].id == id
  {
    if tasks != [] { ByIdIsKeyed(tasks[..|tasks| - 1]); }
  }

  function StartOf(tasks: seq<Task>, workers: nat, cap: Option<real>): Pool {
    Pool(ById(tasks), cap, ById(tasks), map[], 0, seq(workers, _ => Top), [], 0.0, false, map[], seq(workers, _ => 0))
  }

  lemma {:induction false} NobodyActive(phase: seq<Phase>)
    requires forall w: nat | w < |phase| :: phase[w].Top?
    ensures ActiveCount(phase) == 0
  {
    SomebodyActive(phase);
  }

  lemma StartIsSafe(tasks: seq<Task>, workers: nat, cap: Option<real>)
    requires cap.Some? ==> cap.value > 0.0
    ensures StartOf(tasks, workers, cap).Inv()
  {
    NobodyActive(seq(workers, _ => Top));
  }

  /** The batch after all workers are gone. */
  class Batch {
    var tl: TaskList
    var phase: seq<Phase>
    var results: seq<Result>
    var spent: real
    var cancelled: bool
    const cap: Option<real>
    ghost var pool: Pool

    /** The variables are those of pool. */
    ghost predicate Valid()
      reads this, tl
    {
      && pool.Inv()
      && pool.pending == tl.pending && pool.succeed == tl.succeed && pool.running == tl.running
      && pool.phase == phase && pool.results == results && pool.spent == spent && pool.cancelled == cancelled
      && pool.cap == cap
      && (forall id | id in pool.all :: pool.all[id].id == id)
    }

    constructor (tasks: seq<Task>, workers: nat, cap: Option<real>)
      requires cap.Some? ==> cap.value > 0.0
      ensures Valid() && fresh(tl) && pool == StartOf(tasks, workers, cap)
    {
      tl := new TaskList(tasks);
      phase, results, spent, cancelled := seq(workers, _ => Top), [], 0.0, false;
      this.cap := cap;
      pool := StartOf(tasks, workers, cap);
      StartIsSafe(tasks, workers, cap);
      ByIdIsKeyed(tasks);
    }

    lemma SameLengths(p: Pool)
      requires p.Inv()
      ensures |p.late| == |p.phase|
    {}

    /** What worker w does next. */
    method Turn(w: nat) returns (ghost a: Action)
      requires Valid() && pool.Enabled(w)
      modifies this`phase, this`results, this`spent, this`pool, tl
      ensures Valid() && tl == old(tl)
      ensures old(pool).May(w, a) && pool == old(pool).Do(w, a)
    {
      hide Pool.Inv, Pool.Ready, Pool.NoneReady;
      ghost var p := pool;
      a := Look;
      SameLengths(p);
      match phase[w] {
        case Top =>
          phase := phase[w := if cancelled then Exited(Cancelled) else Capping];
        case Capping =>
          a := Check;
          phase := phase[w := if cap.Some? && spent >= cap.value then Exited(Capped) else Claiming];
        case Claiming =>
          a := ClaimTurn(w);
        case Running(id) =>
          var ok: bool, cost: real := *, *;
          if cost < 0.0 { cost := 0.0; }
          a := Finish(ok, cost);
          spent, results := spent + cost, results + [Result(id, ok, false)];
          phase := phase[w := Emitted(id, ok)];
        case Emitted(id, ok) =>
          a := Report;
          tl.Complete(id, ok);
          phase := Woken(phase)[w := Top];
      }
      StepKeeps(p, w, a);
      pool := p.Do(w, a);
    }

    method ClaimTurn(w: nat) returns (ghost a: Action)
      requires Valid() && w < |phase| && phase[w].Claiming?
      modifies this`phase, tl
      ensures tl == old(tl) && pool.May(w, a) && !a.Finish?
      ensures var q := pool.Do(w, a);
        q.pending == tl.pending && q.succeed == tl.succeed && q.running == tl.running && q.phase == phase
        && q.results == results && q.spent == spent
    {
      var c := tl.TryClaim();
      match c {
        case Claimed(t) =>
          a := Take(t.id);
          phase := phase[w := Running(t.id)];
        case Nothing =>
          a := Leave;
          phase := Woken(phase)[w := Exited(Drained)];
        case MustWait =>
          a := Action.Wait;
          phase := phase[w := Waiting];
      }
    }

    method Cancel()
      requires Valid()
      modifies this`cancelled, this`pool
      ensures Valid() && cancelled && pool == old(pool).(cancelled := true)
    {
      CancelKeeps(pool);
      cancelled, pool := true, pool.(cancelled := true);
    }

    /** The workers, scheduled in any order, until all are gone. The context may
        be cancelled at any point. It always comes to that end, and what it does
        on the way there is a run of the model. */
    method RunWorkers() returns (ghost sched: seq<Event>)
      requires Valid()
      modifies this, tl
      ensures Valid() && tl == old(tl) && AllExited(phase)
      ensures Ran(old(pool), sched) == Some(pool)
    {
      hide Pool.Inv, Fuel;
      sched := [];
      while !AllExited(phase)
        invariant Valid() && tl == old(tl) && Ran(old(pool), sched) == Some(pool)
        decreases Fuel(pool) + if cancelled then 0 else 1
      {
        ghost var p := pool;
        SomebodyCanStep(p);
        var w: nat :| w < |phase| && !phase[w].Waiting? && !phase[w].Exited?;
        var cancel: bool := *;
        if cancel && !cancelled {
          RanSnoc(old(pool), sched, Event.Cancel);
          Cancel();
          FuelOfCancelled(p);
          sched := sched + [Event.Cancel];
        } else {
          ghost var a := Turn(w);
          RanSnoc(old(pool), sched, Act(w, a));
          StepBurnsFuel(p, w, a);
          SameBatch(p, w, a);
          sched := sched + [Act(w, a)];
        }
      }
      var atLast: bool := *;
      if atLast {
        RanSnoc(old(pool), sched, Event.Cancel);
        Cancel();
        sched := sched + [Event.Cancel];
      }
    }
  }

  lemma FuelOfCancelled(p: Pool)
    ensures Fuel(p.(cancelled := true)) == Fuel(p)
  {}

  lemma SameBatch(p: Pool, w: nat, a: Action)
    requires p.May(w, a)
    ensures var q := p.Do(w, a);
      && q.all == p.all && |q.phase| == |p.phase| && q.cancelled == p.cancelled && q.cap == p.cap
      && q.spent == p.spent + (if a.Finish? then a.cost else 0.0) && p.results <= q.results
  {}

  /** The ids of the results, each once, are those of the batch. */
  ghost predicate OneResultEach(results: seq<Result>, all: map<string, Task>) {
    && (forall i, j | 0 <= i < j < |results| :: results[i].id != results[j].id)
    && (forall r | r in results :: r.id in all)
    && (forall id | id in all :: exists r :: r in results && r.id == id)
  }

  lemma ReportedOrPending(p: Pool)
    requires p.Inv() && AllExited(p.phase)
    ensures forall id | id in p.all :: id in p.pending || exists r :: r in p.results && r.id == id
  {
    AtTheEnd(p);
    forall id | id in p.all && id !in p.pending ensures exists r :: r in p.results && r.id == id {
      assert Result(id, p.succeed[id], false) in p.results;
    }
  }

  function Skips(ids: seq<string>): seq<Result> {
    seq(|ids|, i requires 0 <= i < |ids| => Result(ids[i], false, true))
  }

  lemma InSkips(ids: seq<string>, r: Result)
    ensures r in Skips(ids) <==> r.id in ids && r == Result(r.id, false, true)
  {
    if r.id in ids && r == Result(r.id, false, true) {
      var j :| 0 <= j < |ids| && ids[j] == r.id;
      assert Skips(ids)[j] == r;
    }
  }

  lemma SkippedAdded(p: Pool, ids: seq<string>)
    requires p.Inv() && AllExited(p.phase)
    requires forall id :: id in ids <==> id in p.pending
    requires forall i, j | 0 <= i < j < |ids| :: ids[i] != ids[j]
    ensures OneResultEach(p.results + Skips(ids), p.all)
    ensures forall r | r in p.results + Skips(ids) :: r.skipped <==> r.id !in p.holder
    ensures forall r | r in p.results + Skips(ids) && !r.skipped :: r in p.results
  {
    hide Skips, Pool.Inv;
    AtTheEnd(p);
    ReportedOrPending(p);
    PendingUnheld(p);
    forall r ensures r in Skips(ids) <==> r.id in ids && r == Result(r.id, false, true) { InSkips(ids, r); }
    SkipsDistinct(ids);
    var all := p.results + Skips(ids);
    DisjointIds(p.results, Skips(ids));
    forall id | id in p.all ensures exists r :: r in all && r.id == id {
      if id in p.pending {
        assert Result(id, false, true) in all;
      } else {
        var r :| r in p.results && r.id == id;
        assert r in all;
      }
    }
  }

  lemma SkipsDistinct(ids: seq<string>)
    requires forall i, j | 0 <= i < j < |ids| :: ids[i] != ids[j]
    ensures forall i, j | 0 <= i < j < |Skips(ids)| :: Skips(ids)[i].id != Skips(ids)[j].id
  {}

  lemma DisjointIds(xs: seq<Result>, ys: seq<Result>)
    requires forall i, j | 0 <= i < j < |xs| :: xs[i].id != xs[j].id
    requires forall i, j | 0 <= i < j < |ys| :: ys[i].id != ys[j].id
    requires forall x, y | x in xs && y in ys :: x.id != y.id
    ensures forall i, j | 0 <= i < j < |xs + ys| :: (xs + ys)[i].id != (xs + ys)[j].id
  {
    forall i, j | 0 <= i < j < |xs + ys| ensures (xs + ys)[i].id != (xs + ys)[j].id {
      if i < |xs| <= j { assert xs[i] in xs && ys[j - |xs|] in ys; }
    }
  }

  lemma PendingUnheld(p: Pool)
    requires p.Inv()
    ensures forall id | id in p.all :: id in p.pending <==> id !in p.holder
    ensures forall id | id in p.pending :: id in p.all
    ensures forall r | r in p.results :: r.id in p.all
    ensures forall i, j | 0 <= i < j < |p.results| :: p.results[i].id != p.results[j].id
  {
    forall r | r in p.results ensures r.id in p.all { assert p.Out(r.id); }
  }

  /** Nothing is skipped if nothing prevented it. */
  ghost predicate RanInFull(all: map<string, Task>, results: seq<Result>) {
    (exists rank :: Ranked(all, rank)) && (forall r | r in results && !r.skipped :: r.ok) ==>
      forall r | r in results :: !r.skipped
  }

  lemma NoGoodResult(p: Pool, d: string)
    requires p.Inv() && AllExited(p.phase) && !(d in p.succeed && p.succeed[d])
    ensures Result(d, true, false) !in p.results
  {
    AtTheEnd(p);
    if d in p.succeed {
      var j :| 0 <= j < |p.results| && p.results[j] == Result(d, false, false);
      forall i | 0 <= i < |p.results| ensures p.results[i] != Result(d, true, false) {
        assert i == j || p.results[i].id != d;
      }
    }
  }

  /** A task that ran has its result after a good one of each task it depends on. */
  ghost predicate DependenciesServed(all: map<string, Task>, results: seq<Result>) {
    forall i, d | 0 <= i < |results| && !results[i].skipped && results[i].id in all
                  && d in all[results[i].id].dependsOn :: Result(d, true, false) in results[..i]
  }

  /** A skipped task depends on one that has no good result. */
  ghost predicate SkipsExplained(all: map<string, Task>, results: seq<Result>) {
    forall r | r in results && r.skipped && r.id in all ::
      exists d :: d in all[r.id].dependsOn && Result(d, true, false) !in results
  }

  lemma FollowsInFull(p: Pool, ids: seq<string>)
    requires p.Inv()
    ensures DependenciesServed(p.all, p.results + Skips(ids))
  {
    var all := p.results + Skips(ids);
    forall i, d | 0 <= i < |all| && !all[i].skipped && all[i].id in p.all && d in p.all[all[i].id].dependsOn
      ensures Result(d, true, false) in all[..i]
    {
      assert i < |p.results|;
      assert all[..i] == p.results[..i];
    }
  }

  lemma FullRun(p: Pool, ids: seq<string>)
    requires p.Inv() && AllExited(p.phase) && |p.phase| > 0 && !p.cancelled && !p.Over()
    requires forall id :: id in ids <==> id in p.pending
    ensures RanInFull(p.all, p.results + Skips(ids))
    ensures SkipsExplained(p.all, p.results + Skips(ids))
  {
    var all := p.results + Skips(ids);
    AtTheEnd(p);
    NoneReadyAtTheEnd(p);
    forall r | r in all && r.skipped && r.id in p.all
      ensures exists d :: d in p.all[r.id].dependsOn && Result(d, true, false) !in all
    {
      InSkips(ids, r);
      var d :| d in p.all[r.id].dependsOn && !(d in p.succeed && p.succeed[d]);
      NoGoodResult(p, d);
      InSkips(ids, Result(d, true, false));
    }
    if (forall r | r in all && !r.skipped :: r.ok) {
      if rank :| Ranked(p.all, rank) {
        forall r | r in p.results ensures r.ok { assert r in all; }
        NothingLeft(p, rank);
        forall r | r in all ensures !r.skipped { InSkips(ids, r); }
      }
    }
  }

  /** A worker that looks at the cap goes on to claim exactly if what has finished
      cost less; of two claims of a worker the first was made below the cap. */
  ghost predicate CapObeyed(p: Pool, sched: seq<Event>) {
    && (forall i | 0 <= i < |sched| && sched[i].Act? && sched[i].a.Check? ::
          var w, q := sched[i].w, Ran(p, sched[..i + 1]);
          q.Some? && w < |q.value.phase|
          && (q.value.phase[w] == Claiming <==> p.cap.None? || CostOf(sched[..i]) < p.cap.value))
    && (p.cap.Some? ==>
          forall w: nat, i, j | 0 <= i < j < |sched| && Claims(sched[i], w) && Claims(sched[j], w) ::
            CostOf(sched[..i]) < p.cap.value)
  }

  lemma {:induction false} CapIsObeyed(p: Pool, sched: seq<Event>)
    requires p.Inv() && p.spent == 0.0 && !p.cancelled && Ran(p, sched).Some?
    ensures CapObeyed(p, sched)
    ensures Ran(p, sched).value.cancelled <==> Cancel in sched
  {
    hide Pool.Inv, Ran, CostOf, Moved;
    CancelledIs(p, sched);
    forall i | 0 <= i < |sched| && sched[i].Act? && sched[i].a.Check?
      ensures var w, q := sched[i].w, Ran(p, sched[..i + 1]);
        q.Some? && w < |q.value.phase|
        && (q.value.phase[w] == Claiming <==> p.cap.None? || CostOf(sched[..i]) < p.cap.value)
    {
      CheckDecides(p, sched, i);
    }
    forall w: nat, i, j | p.cap.Some? && 0 <= i < j < |sched| && Claims(sched[i], w) && Claims(sched[j], w)
      ensures CostOf(sched[..i]) < p.cap.value
    {
      OneLateClaim(p, sched, w, i, j);
    }
  }

  /** What the batch's results are, once its run is over and the tasks in ids were
      never claimed. */
  lemma WhatResults(p: Pool, ids: seq<string>)
    requires p.Inv() && AllExited(p.phase) && |p.phase| > 0
    requires forall id :: id in ids <==> id in p.pending
    requires forall i, j | 0 <= i < j < |ids| :: ids[i] != ids[j]
    ensures var all := p.results + Skips(ids);
      && OneResultEach(all, p.all) && DependenciesServed(p.all, all)
      && (forall r | r in all :: r.skipped <==> r.id !in p.holder)
      && (forall r | r in all && !r.skipped :: r in p.results)
      && (!p.cancelled && (p.cap.Some? ==> p.spent < p.cap.value) ==>
            RanInFull(p.all, all) && SkipsExplained(p.all, all))
    ensures |p.late| == |p.phase| && forall w: nat | w < |p.phase| :: p.late[w] <= 1
  {
    AtTheEnd(p);
    hide Pool.Inv, OneResultEach, RanInFull, SkipsExplained, DependenciesServed, Skips;
    SkippedAdded(p, ids);
    FollowsInFull(p, ids);
    LateIsLong(p);
    if !p.cancelled && !p.Over() { FullRun(p, ids); }
  }

  lemma LateIsLong(p: Pool)
    requires p.Inv()
    ensures |p.late| == |p.phase|
  {}

  /** Fleet.Run. Whatever the schedule, the outcomes and the costs, it comes to an
      end of the model's run on that schedule. Every distinct task id of the batch
      gets exactly one result: the one it had in that run, or, after those, skipped
      if no worker ever claimed it. A task that ran has its result after good ones
      of all it depends on. A worker that looks at the cap goes on exactly if what
      the finished tasks cost is below it, so that no worker claims more than one
      task after it is reached. Unless it was or the context was cancelled, a
      skipped task lacks a dependency, and an acyclic batch without failures has
      nothing skipped. */
  method Run(tasks: seq<Task>, workers: nat, cap: Option<real>)
    returns (results: seq<Result>, spent: real, cancelled: bool, ghost sched: seq<Event>, ghost end: Pool)
    requires workers > 0 && (cap.Some? ==> cap.value > 0.0)
    ensures Ran(StartOf(tasks, workers, cap), sched) == Some(end) && AllExited(end.phase) && end.Inv()
    ensures spent == end.spent == CostOf(sched) && cancelled == end.cancelled
    ensures end.all == ById(tasks) && end.cap == cap && |end.phase| == workers == |end.late|
    ensures OneResultEach(results, ById(tasks)) && end.results <= results
    ensures forall r | r in results :: r.skipped <==> r.id !in end.holder
    ensures forall r | r in results && !r.skipped :: r in end.results
    ensures LastOfEach(tasks, end.all) && DependenciesServed(end.all, results)
    ensures CapObeyed(StartOf(tasks, workers, cap), sched) && (cancelled <==> Cancel in sched)
    ensures !cancelled && (cap.Some? ==> CostOf(sched) < cap.value) ==>
      RanInFull(ById(tasks), results) && SkipsExplained(ById(tasks), results)
    ensures forall w: nat | w < workers :: end.late[w] <= 1
  {
    hide Pool.Inv, OneResultEach, RanInFull, Ran, CostOf, SkipsExplained, DependenciesServed, CapObeyed, LastOfEach;
    var b := new Batch(tasks, workers, cap);
    StartIsSafe(tasks, workers, cap);
    sched := b.RunWorkers();
    end, cancelled, spent := b.pool, b.cancelled, b.spent;
    RunKeeps(StartOf(tasks, workers, cap), sched);
    CapIsObeyed(StartOf(tasks, workers, cap), sched);
    ByIdIs(tasks);
    results := b.results;
    var ids := b.tl.Unfinished();
    for i := 0 to |ids|
      invariant results == end.results + Skips(ids[..i])
    {
      assert Skips(ids[..i + 1]) == Skips(ids[..i]) + [Result(ids[i], false, true)];
      results := results + [Result(ids[i], false, true)];
    }
    assert ids[..|ids|] == ids;
    WhatResults(end, ids);
  }
}
