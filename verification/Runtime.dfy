/** The state that a running graph shares with its environment: the checkpoint
    store, the log writer of a call, and the report of a run (graph/durable.go,
    graph/report.go).

    The environment decides at `if *`: an append may fail with or without the
    record having reached the store, an attempt may fail, a call may be
    cancelled. A process that dies between two appends leaves the log of a call
    whose next append failed, so a crash is one of these choices. Each of them
    is counted in Store.faults. */
module Runtime {
  import opened RunLog

  class Store {
    var logs: map<string, seq<Record>>
    ghost var faults: nat

    constructor ()
      ensures logs == map[] && faults == 0
    {
      logs, faults := map[], 0;
    }

    function Log(id: string): seq<Record>
      reads this`logs
    {
      if id in logs then logs[id] else []
    }

    /** Only the log of id changed, and only at its end. */
    twostate predicate Grew(id: string)
      reads this
    {
      && (forall x | x != id :: Log(x) == old(Log(x)))
      && old(Log(id)) <= Log(id)
      && old(faults) <= faults
    }

    /** The run went on by itself: nothing was appended that only a caller may
        put there, no answer above all. */
    twostate predicate WentOn(id: string)
      reads this
    {
      Grew(id) && Steered(Log(id)) == old(Steered(Log(id)))
    }

    method Append(id: string, r: Record) returns (ok: bool)
      modifies this
      ensures Grew(id)
      ensures ok ==> Log(id) == old(Log(id)) + [r] && faults == old(faults)
      ensures !ok ==> (Log(id) == old(Log(id)) || Log(id) == old(Log(id)) + [r]) && faults > old(faults)
    {
      ok := true;
      if * {
        ok, faults := false, faults + 1;
        if * { return; }
      }
      logs := logs[id := Log(id) + [r]];
    }

    /** A power loss takes the end of a log. Which ends it can take is
        FileStore's matter; here it is any. */
    method Lose(id: string, left: nat)
      requires left <= |Log(id)|
      modifies this
      ensures Log(id) == old(Log(id))[..left] && faults > old(faults)
      ensures forall x | x != id :: Log(x) == old(Log(x))
    {
      logs, faults := logs[id := Log(id)[..left]], faults + 1;
    }

    method Load(id: string) returns (recs: seq<Record>, ok: bool)
      modifies this`faults
      ensures ok ==> recs == Log(id) && faults == old(faults)
      ensures !ok ==> faults > old(faults)
    {
      recs, ok := Log(id), true;
      if * { recs, ok, faults := [], false, faults + 1; }
    }
  }

  class CkWriter {
    const store: Store
    const runID: string
    var last: nat
    var failed: bool

    constructor (store: Store, runID: string, last: nat)
      ensures this.store == store && this.runID == runID && this.last == last && !failed
    {
      this.store, this.runID, this.last, this.failed := store, runID, last, false;
    }

    function Log(): seq<Record>
      reads store`logs
    {
      store.Log(runID)
    }

    /** The next record gets the next number, unless the log broke: then there
        is no next record. */
    predicate InSync()
      reads this, store`logs
    {
      !failed ==> last == |Log()|
    }

    /** ckWriter.append, with its sticky failure. */
    method Append(b: Body) returns (ok: bool)
      requires InSync()
      modifies this, store
      ensures InSync() && store.Grew(runID)
      ensures !Steers(old(Log()), b) ==> store.WentOn(runID)
      ensures ok == !failed
      ensures old(failed) ==> failed && Log() == old(Log()) && store.faults == old(store.faults)
      ensures ok ==> Log() == old(Log()) + [Record(|old(Log())| + 1, b)] && store.faults == old(store.faults)
      ensures !old(failed) && !ok ==>
        (Log() == old(Log()) || Log() == old(Log()) + [Record(|old(Log())| + 1, b)]) && store.faults > old(store.faults)
    {
      hide Steered;
      if failed { return false; }
      SteeredSnoc(Log(), Record(last + 1, b));
      last := last + 1;
      ok := store.Append(runID, Record(last, b));
      failed := !ok;
    }
  }

  function Count(visits: map<string, nat>, name: string): nat {
    if name in visits then visits[name] else 0
  }

  /** visits counts the executions in path. */
  ghost predicate Counts(visits: map<string, nat>, path: seq<string>) {
    forall n :: Count(visits, n) == multiset(path)[n]
  }

  lemma CountsVisit(visits: map<string, nat>, path: seq<string>, name: string)
    requires Counts(visits, path)
    ensures Counts(visits[name := Count(visits, name) + 1], path + [name])
    ensures Count(visits, name) == multiset(path)[name]
  {}

  datatype RunReport = RunReport(steps: seq<StepRec>, total: real, path: seq<string>)

  /** What a run accumulates for its report. */
  class Recorder {
    var steps: seq<StepRec>
    var path: seq<string>
    var visits: map<string, nat>
    var prior: seq<StepRec>

    constructor (prior: seq<StepRec>)
      ensures this.prior == prior && steps == [] && path == [] && visits == map[]
    {
      this.prior, steps, path, visits := prior, [], [], map[];
    }

    function Peek(name: string): nat
      reads this`visits
    {
      Count(visits, name)
    }

    method SeedVisits(path: seq<string>)
      modifies this`visits
      ensures Counts(visits, path)
    {
      visits := map[];
      for i := 0 to |path|
        invariant Counts(visits, path[..i])
      {
        assert path[..i + 1] == path[..i] + [path[i]];
        CountsVisit(visits, path[..i], path[i]);
        visits := visits[path[i] := Peek(path[i]) + 1];
      }
      assert path[..|path|] == path;
    }

    method Visit(name: string) returns (n: nat)
      modifies this`visits
      ensures n == Count(visits, name) == Count(old(visits), name) + 1
      ensures forall m | m != name :: Count(visits, m) == Count(old(visits), m)
    {
      visits := visits[name := Peek(name) + 1];
      n := visits[name];
    }

    method Add(s: StepRec)
      modifies this`steps
      ensures steps == old(steps) + [s]
      ensures TotalCost(steps) == TotalCost(old(steps)) + s.cost
      ensures Top(steps) == Top(old(steps)) + if s.parent == "" then [s] else []
    {
      assert (steps + [s])[..|steps|] == steps;
      steps := steps + [s];
    }

    /** report: what this call did, after what earlier calls had done. */
    method Report() returns (rep: RunReport)
      ensures rep.steps == prior + steps && rep.path == path
      ensures rep.total == TotalCost(prior) + TotalCost(steps)
      ensures Top(rep.steps) == Top(prior) + Top(steps)
    {
      var all, total := prior + steps, 0.0;
      for i := 0 to |all|
        invariant total == TotalCost(all[..i])
      {
        assert all[..i + 1][..i] == all[..i];
        total := total + all[i].cost;
      }
      assert all[..|all|] == all;
      CostJoins(prior, steps);
      TopJoins(prior, steps);
      rep := RunReport(all, total, path);
    }
  }

  function Last<T>(xs: seq<T>): T
    requires xs != []
  {
    xs[|xs| - 1]
  }

  /** The steps that are not a branch's. */
  function Top(steps: seq<StepRec>): seq<StepRec> {
    if steps == [] then [] else Top(steps[..|steps| - 1]) + if Last(steps).parent == "" then [Last(steps)] else []
  }

  lemma {:induction false} TopJoins(a: seq<StepRec>, b: seq<StepRec>)
    ensures Top(a + b) == Top(a) + Top(b)
  {
    if b == [] {
      assert a + b == a;
    } else {
      TopJoins(a, b[..|b| - 1]);
      assert (a + b)[..|a + b| - 1] == a + b[..|b| - 1];
    }
  }

  lemma {:induction false} CostJoins(a: seq<StepRec>, b: seq<StepRec>)
    ensures TotalCost(a + b) == TotalCost(a) + TotalCost(b)
  {
    if b == [] {
      assert a + b == a;
    } else {
      CostJoins(a, b[..|b| - 1]);
      assert (a + b)[..|a + b| - 1] == a + b[..|b| - 1];
    }
  }

  function TotalCost(steps: seq<StepRec>): real {
    if steps == [] then 0.0 else TotalCost(steps[..|steps| - 1]) + steps[|steps| - 1].cost
  }
}
