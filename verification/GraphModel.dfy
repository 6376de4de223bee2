/** The compiled graph of graph/graph.go, and what one node execution and one
    routing decision compute. Node, route, clone and merge functions are
    arbitrary total functions: a node is deterministic, and everything that can
    go wrong with one attempt besides is the environment's choice (Engine). */
module GraphModel {
  datatype Option<+T> = None | Some(value: T) {
    function GetOr(default: T): T {
      if Some? then value else default
    }
  }

  /** A state, as the JSON text that the log, the checkpoints and the Temporal
      history carry. */
  type State = string

  const START := "__start__"
  const END := "__end__"

  /** How a node function returns: success, Interrupt, or an error or panic. */
  datatype NodeOut = Done(state: State) | Ask(state: State, question: string) | Fail

  /** Execution number, state, and the human's answer if there is one. */
  type NodeFn = (nat, State, Option<string>) -> NodeOut

  datatype Node =
    | Func(fn: NodeFn)
    | Parallel(branches: seq<string>, merge: (State, seq<State>) -> NodeOut)

  /** A route function returns None when it panics. */
  datatype CondEdge = CondEdge(route: State -> Option<string>, targets: seq<string>)

  datatype Runnable = Runnable(
    nodes: map<string, Node>,
    order: seq<string>,
    statics: map<string, string>,
    cond: map<string, CondEdge>,
    branches: set<string>,
    clone: State -> State,
    maxSteps: nat,
    topoHash: string,
    allowTopo: bool)
  {
    /** A node that can be routed to, stepped and resumed at. */
    predicate Steppable(n: string) {
      n in nodes && n !in branches
    }

    /** The targets declared for the route out of from. */
    function Targets(from: string): seq<string> {
      (if from in statics then [statics[from]] else []) +
      (if from in cond then cond[from].targets else [])
    }

    ghost predicate Wired() {
      && "" !in nodes && START !in nodes && END !in nodes && START !in branches
      && branches <= nodes.Keys
      && (forall n | n in order :: n in nodes)
      && (forall n | n in nodes :: n in order)
      && (forall n | n in statics || n in cond :: n == START || n in nodes)
      && (START in statics <==> START !in cond)
      && (forall n | n in nodes && n !in branches :: n in statics <==> n !in cond)
      && (forall n | n in branches :: n !in statics && n !in cond)
      && (forall n | n in statics :: statics[n] == END || Steppable(statics[n]))
      && (forall n, t | n in cond && t in cond[n].targets :: t == END || Steppable(t))
      && (forall n | n in nodes && nodes[n].Parallel? :: FanOutWired(n))
      && 0 < maxSteps
    }

    ghost predicate FanOutWired(n: string)
      requires n in nodes && nodes[n].Parallel?
    {
      var bs := nodes[n].branches;
      && bs != []
      && (forall i, j | 0 <= i < j < |bs| :: bs[i] != bs[j])
      && AreBranches(bs)
    }

    /** graph.next: None is an invalid route or a route that panicked. */
    function Next(from: string, s: State): Option<string> {
      if from in statics then Some(statics[from])
      else if from in cond then
        match cond[from].route(s)
        case None => None
        case Some(t) => if t in cond[from].targets then Some(t) else None
      else None
    }

    ghost predicate AreBranches(bs: seq<string>) {
      forall i | 0 <= i < |bs| :: bs[i] in branches && bs[i] in nodes && nodes[bs[i]].Func?
    }

    /** What branch b of a fan-out leaves when it starts from s. */
    function Branch(b: string, step: nat, s: State, answer: Option<string>): NodeOut
      requires b in nodes && nodes[b].Func?
    {
      nodes[b].fn(step, clone(s), answer)
    }

    ghost predicate AllDone(bs: seq<string>, step: nat, s: State, answer: Option<string>)
      requires AreBranches(bs)
    {
      forall i | 0 <= i < |bs| :: Branch(bs[i], step, s, answer).Done?
    }

    ghost function Results(bs: seq<string>, step: nat, s: State, answer: Option<string>): seq<State>
      requires AreBranches(bs) && AllDone(bs, step, s, answer)
    {
      seq(|bs|, i requires 0 <= i < |bs| => Branch(bs[i], step, s, answer).state)
    }

    /** A fan-out: merge folds the branches' states, in declared order. A branch
        that fails or asks fails the node, and so does a merge that asks. */
    ghost function EvalParallel(n: string, step: nat, s: State, answer: Option<string>): NodeOut
      requires n in nodes && nodes[n].Parallel? && AreBranches(nodes[n].branches)
    {
      var bs := nodes[n].branches;
      if !AllDone(bs, step, s, answer) then Fail
      else
        var m := nodes[n].merge(s, Results(bs, step, s, answer));
        if m.Done? then m else Fail
    }

    /** One execution of node n: a plain function, or fan-out and merge. */
    ghost function Eval(n: string, step: nat, s: State, answer: Option<string>): NodeOut
      requires Wired() && n in nodes
    {
      if nodes[n].Func? then nodes[n].fn(step, s, answer)
      else
        assert FanOutWired(n);
        EvalParallel(n, step, s, answer)
    }

    /** The route taken is the static edge, or what the route function returned. */
    lemma NextIs(from: string, s: State, t: string)
      ensures Next(from, s) == Some(t) <==>
        if from in statics then t == statics[from]
        else from in cond && cond[from].route(s) == Some(t) && t in cond[from].targets
    {}

    /** What an execution computes: what the node's function does; or, if each
        branch succeeds on a copy of the state, what merge makes of the branches'
        states in declared order. */
    lemma EvalIs(n: string, step: nat, s: State, answer: Option<string>)
      requires Wired() && n in nodes
      ensures nodes[n].Func? ==> Eval(n, step, s, answer) == nodes[n].fn(step, s, answer)
      ensures nodes[n].Parallel? ==>
        && !Eval(n, step, s, answer).Ask?
        && forall out: NodeOut | out.Done? ::
             Eval(n, step, s, answer) == out <==>
             exists rs: seq<State> | |rs| == |nodes[n].branches| ::
               && (forall i | 0 <= i < |rs| ::
                     var b := nodes[n].branches[i];
                     b in nodes && nodes[b].Func? && nodes[b].fn(step, clone(s), answer) == Done(rs[i]))
               && nodes[n].merge(s, rs) == out
    {
      if nodes[n].Parallel? {
        assert FanOutWired(n);
        var bs := nodes[n].branches;
        if AllDone(bs, step, s, answer) {
          var rs := Results(bs, step, s, answer);
          assert forall i | 0 <= i < |rs| :: Branch(bs[i], step, s, answer) == Done(rs[i]);
          forall rs': seq<State> | |rs'| == |bs| && forall i | 0 <= i < |rs'| ::
            bs[i] in nodes && nodes[bs[i]].Func? && nodes[bs[i]].fn(step, clone(s), answer) == Done(rs'[i])
            ensures rs' == rs
          {
            assert forall i | 0 <= i < |rs'| :: Branch(bs[i], step, s, answer) == Done(rs'[i]);
          }
        } else {
          var i :| 0 <= i < |bs| && !Branch(bs[i], step, s, answer).Done?;
        }
      }
    }

    lemma EndIsNoNode()
      requires Wired()
      ensures !Steppable(END)
    {}

    /** Whatever a route function returns, the run goes on at a node it has. */
    lemma NextStaysWired(from: string, s: State)
      requires Wired()
      requires from == START || Steppable(from)
      ensures from in statics || from in cond
      ensures Next(from, s).Some? ==> Next(from, s).value == END || Steppable(Next(from, s).value)
    {
      if from !in statics && from in cond && cond[from].route(s).Some? {
        var t := cond[from].route(s).value;
        if t in cond[from].targets {
          assert t == END || Steppable(t);
        }
      }
    }
  }
}
