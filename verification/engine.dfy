/** A step-by-step interpreter for a fixed graph of named nodes: the part of the graph
    runtime the agents rely on. Each step runs the current node, applies its result to the
    state, and picks the next node either along the node's single static edge or by asking
    the node's router for a label and looking that label up in the router's edge map. The
    step budget is an explicit parameter: a run that has not reached the end after
    `budget` node executions stops with `BudgetExceeded`. */
module Engine {
  import opened Wrappers

  /** Where an edge leads: another node, or the end of the run. */
  datatype Target<N> = To(node: N) | End

  /** The outgoing edge of a node (or of the start): fixed, or chosen by a router whose
      label is looked up in `table`. */
  datatype Edge<N, R> = Static(next: Target<N>) | Conditional(router: R, table: map<string, Target<N>>)

  /** The wired topology: the edge leaving the start, and the edge leaving each node. */
  datatype Graph<N, R> = Graph(start: Edge<N, R>, edges: map<N, Edge<N, R>>)

  /** How a run stopped. */
  datatype Outcome =
    | Finished                   // the end was reached
    | BudgetExceeded             // the step budget ran out first
    | LookupMiss(key: string)  // a router produced a label missing from its edge map
    | NoEdge                     // the node that just ran has no outgoing edge

  /** A run: how it stopped, the nodes executed in order, the state after each of them, and
      the last state. */
  datatype Trace<N, S> = Trace(outcome: Outcome, visited: seq<N>, states: seq<S>, final: S)

  /** Follow one edge from state `s`, with oracle answers `a` for a router. */
  function Resolve<N, R, S, A>(edge: Edge<N, R>, route: (R, S, A) -> string, s: S, a: A)
    : (r: Result<Target<N>, Outcome>)
    ensures r.Success? <==> edge.Static? || route(edge.router, s, a) in edge.table
    ensures r.Success? && edge.Conditional? ==> r.value == edge.table[route(edge.router, s, a)]
    ensures r.Failure? ==> r.error == LookupMiss(route(edge.router, s, a))
  {
    match edge
    case Static(t) => Success(t)
    case Conditional(router, table) =>
      var l := route(router, s, a);
      if l in table then Success(table[l]) else Failure(LookupMiss(l))
  }

  /** Execute node `cur` as step number `k` (counting from 0) and continue. Step `k` reads
      the oracle answers `oracle(k)`, both in the node and in the router after it. */
  function Exec<N(==), R, S, A>(
    g: Graph<N, R>, node: (N, S, A) -> S, route: (R, S, A) -> string,
    cur: N, s: S, oracle: nat -> A, k: nat, budget: nat): (t: Trace<N, S>)
    requires k <= budget
    ensures |t.visited| == |t.states| <= budget - k
    ensures t.outcome == BudgetExceeded ==> k + |t.visited| == budget
    ensures k < budget ==> 0 < |t.visited| && t.visited[0] == cur && t.states[0] == node(cur, s, oracle(k))
    ensures |t.states| > 0 ==> t.final == t.states[|t.states| - 1]
    ensures |t.states| == 0 ==> t.final == s
    decreases budget - k
  {
    if k >= budget then Trace(BudgetExceeded, [], [], s)
    else
      var s' := node(cur, s, oracle(k));
      if cur !in g.edges then Trace(NoEdge, [cur], [s'], s')
      else match Resolve(g.edges[cur], route, s', oracle(k))
        case Failure(e) => Trace(e, [cur], [s'], s')
        case Success(End) => Trace(Finished, [cur], [s'], s')
        case Success(To(next)) =>
          var rest := Exec(g, node, route, next, s', oracle, k + 1, budget);
          Trace(rest.outcome, [cur] + rest.visited, [s'] + rest.states, rest.final)
  }

  /** A step that follows an edge to another node adds that node's run behind it. */
  lemma ExecSteps<N, R, S, A>(
    g: Graph<N, R>, node: (N, S, A) -> S, route: (R, S, A) -> string,
    cur: N, s: S, oracle: nat -> A, k: nat, budget: nat, next: N)
    requires k < budget && cur in g.edges
    requires Resolve(g.edges[cur], route, node(cur, s, oracle(k)), oracle(k)) == Success(To(next))
    ensures var t := Exec(g, node, route, cur, s, oracle, k, budget);
      var rest := Exec(g, node, route, next, node(cur, s, oracle(k)), oracle, k + 1, budget);
      && t.outcome == rest.outcome
      && t.visited == [cur] + rest.visited
      && t.states == [node(cur, s, oracle(k))] + rest.states
      && t.final == rest.final
  {
  }

  /** A step that follows an edge to the end finishes the run right after that node. */
  lemma ExecEnds<N, R, S, A>(
    g: Graph<N, R>, node: (N, S, A) -> S, route: (R, S, A) -> string,
    cur: N, s: S, oracle: nat -> A, k: nat, budget: nat)
    requires k < budget && cur in g.edges
    requires Resolve(g.edges[cur], route, node(cur, s, oracle(k)), oracle(k)) == Success(End)
    ensures Exec(g, node, route, cur, s, oracle, k, budget)
         == Trace(Finished, [cur], [node(cur, s, oracle(k))], node(cur, s, oracle(k)))
  {
  }

  /** From every configuration satisfying `inv`, under answers satisfying `ok`, the edge
      lookup succeeds and leads to another node, again satisfying `inv`. */
  ghost predicate Loops<N(!new), R, S(!new), A(!new)>(
    g: Graph<N, R>, node: (N, S, A) -> S, route: (R, S, A) -> string,
    inv: (N, S) -> bool, ok: A -> bool)
  {
    forall n, s, a :: inv(n, s) && ok(a) ==> LoopStep(g, node, route, inv, n, s, a)
  }

  ghost predicate LoopStep<N, R, S, A>(
    g: Graph<N, R>, node: (N, S, A) -> S, route: (R, S, A) -> string,
    inv: (N, S) -> bool, n: N, s: S, a: A)
  {
    && n in g.edges
    && Resolve(g.edges[n], route, node(n, s, a), a).Success?
    && Resolve(g.edges[n], route, node(n, s, a), a).value.To?
    && inv(Resolve(g.edges[n], route, node(n, s, a), a).value.node, node(n, s, a))
  }

  /** A run that never leaves such a loop runs until the budget is spent, through nodes of
      the loop only. */
  lemma {:induction false} ExecLoops<N(!new), R, S(!new), A(!new)>(
    g: Graph<N, R>, node: (N, S, A) -> S, route: (R, S, A) -> string,
    inv: (N, S) -> bool, ok: A -> bool, nodes: set<N>,
    cur: N, s: S, oracle: nat -> A, k: nat, budget: nat)
    requires k <= budget && inv(cur, s)
    requires Loops(g, node, route, inv, ok)
    requires forall n, s :: inv(n, s) ==> n in nodes
    requires forall j :: ok(oracle(j))
    ensures var t := Exec(g, node, route, cur, s, oracle, k, budget);
      && t.outcome == BudgetExceeded
      && forall i :: 0 <= i < |t.visited| ==> t.visited[i] in nodes
    decreases budget - k
  {
    if k < budget {
      var a := oracle(k);
      assert LoopStep(g, node, route, inv, cur, s, a);
      var next := Resolve(g.edges[cur], route, node(cur, s, a), a).value.node;
      ExecLoops(g, node, route, inv, ok, nodes, next, node(cur, s, a), oracle, k + 1, budget);
      ExecSteps(g, node, route, cur, s, oracle, k, budget, next);
      var t := Exec(g, node, route, cur, s, oracle, k, budget);
      var rest := Exec(g, node, route, next, node(cur, s, a), oracle, k + 1, budget);
      forall i | 0 <= i < |t.visited| ensures t.visited[i] in nodes {
        if i > 0 {
          assert t.visited[i] == rest.visited[i - 1];
        }
      }
    }
  }

  /** From every configuration satisfying `inv`, under answers satisfying `ok`, the edge
      lookup succeeds; it leads either to another such configuration whose `measure` is
      one less, or, with `measure` 1, to the end with `post` holding of the node and the
      state it leaves. */
  ghost predicate Converges<N(!new), R, S(!new), A(!new)>(
    g: Graph<N, R>, node: (N, S, A) -> S, route: (R, S, A) -> string,
    inv: (N, S) -> bool, ok: A -> bool, measure: (N, S) -> nat, post: (N, S) -> bool)
  {
    forall n, s, a :: inv(n, s) && ok(a) ==> ConvergeStep(g, node, route, inv, measure, post, n, s, a)
  }

  ghost predicate ConvergeStep<N, R, S, A>(
    g: Graph<N, R>, node: (N, S, A) -> S, route: (R, S, A) -> string,
    inv: (N, S) -> bool, measure: (N, S) -> nat, post: (N, S) -> bool, n: N, s: S, a: A)
  {
    && n in g.edges
    && Resolve(g.edges[n], route, node(n, s, a), a).Success?
    && match Resolve(g.edges[n], route, node(n, s, a), a).value
       case End => measure(n, s) == 1 && post(n, node(n, s, a))
       case To(m) => inv(m, node(n, s, a)) && measure(m, node(n, s, a)) + 1 == measure(n, s)
  }

  /** A run inside such a region finishes after exactly `measure` nodes when the budget
      allows that many, with `post` holding at the end, and runs out of budget otherwise. */
  lemma {:induction false} ExecConverges<N(!new), R, S(!new), A(!new)>(
    g: Graph<N, R>, node: (N, S, A) -> S, route: (R, S, A) -> string,
    inv: (N, S) -> bool, ok: A -> bool, measure: (N, S) -> nat, post: (N, S) -> bool,
    cur: N, s: S, oracle: nat -> A, k: nat, budget: nat)
    requires k <= budget && inv(cur, s)
    requires Converges(g, node, route, inv, ok, measure, post)
    requires forall j :: ok(oracle(j))
    ensures var t := Exec(g, node, route, cur, s, oracle, k, budget);
      && t.outcome == (if k + measure(cur, s) <= budget then Finished else BudgetExceeded)
      && (t.outcome == Finished ==>
            && |t.visited| == measure(cur, s)
            && post(t.visited[|t.visited| - 1], t.final))
    decreases budget - k
  {
    var a := oracle(k);
    assert ConvergeStep(g, node, route, inv, measure, post, cur, s, a);
    if k < budget {
      match Resolve(g.edges[cur], route, node(cur, s, a), a).value
      case End =>
      case To(next) =>
        ExecConverges(g, node, route, inv, ok, measure, post, next, node(cur, s, a), oracle, k + 1, budget);
        ExecSteps(g, node, route, cur, s, oracle, k, budget, next);
    }
  }

  /** Run the graph from the start edge on `s0`; the start router reads `oracle(0)`. */
  function Run<N(==), R, S, A>(
    g: Graph<N, R>, node: (N, S, A) -> S, route: (R, S, A) -> string,
    s0: S, oracle: nat -> A, budget: nat): (t: Trace<N, S>)
    ensures |t.visited| == |t.states| <= budget
    ensures t.outcome == BudgetExceeded ==> |t.visited| == budget
  {
    match Resolve(g.start, route, s0, oracle(0))
    case Failure(e) => Trace(e, [], [], s0)
    case Success(End) => Trace(Finished, [], [], s0)
    case Success(To(first)) => Exec(g, node, route, first, s0, oracle, 0, budget)
  }

  /** Each recorded state is the recorded node applied to the state before it, and each
      recorded node after the first is where the edge before it led. */
  ghost predicate IsHistory<N, R, S, A>(
    g: Graph<N, R>, node: (N, S, A) -> S, route: (R, S, A) -> string,
    t: Trace<N, S>, oracle: nat -> A, k: nat)
    requires |t.visited| == |t.states|
  {
    forall i, j :: 0 <= i && j == i + 1 && j < |t.states| ==> Followed(g, node, route, t, oracle, k, i, j)
  }

  /** Step `j` of the trace continues step `i` along an edge. */
  ghost predicate Followed<N, R, S, A>(
    g: Graph<N, R>, node: (N, S, A) -> S, route: (R, S, A) -> string,
    t: Trace<N, S>, oracle: nat -> A, k: nat, i: nat, j: nat)
    requires i < j < |t.visited| == |t.states|
  {
    && t.states[j] == node(t.visited[j], t.states[i], oracle(k + j))
    && t.visited[i] in g.edges
    && Resolve(g.edges[t.visited[i]], route, t.states[i], oracle(k + i)) == Success(To(t.visited[j]))
  }

  /** A history behind a first step that leads to its first node is again a history. */
  lemma HistoryCons<N, R, S, A>(
    g: Graph<N, R>, node: (N, S, A) -> S, route: (R, S, A) -> string,
    cur: N, s': S, oracle: nat -> A, k: nat, rest: Trace<N, S>, t: Trace<N, S>)
    requires |rest.visited| == |rest.states|
    requires t.visited == [cur] + rest.visited && t.states == [s'] + rest.states
    requires IsHistory(g, node, route, rest, oracle, k + 1)
    requires |rest.visited| > 0 ==>
      && rest.states[0] == node(rest.visited[0], s', oracle(k + 1))
      && cur in g.edges
      && Resolve(g.edges[cur], route, s', oracle(k)) == Success(To(rest.visited[0]))
    ensures IsHistory(g, node, route, t, oracle, k)
  {
    forall i, j | 0 <= i && j == i + 1 && j < |t.states|
      ensures Followed(g, node, route, t, oracle, k, i, j)
    {
      assert t.states[j] == rest.states[i] && t.visited[j] == rest.visited[i];
      if i == 0 {
        assert t.visited[0] == cur && t.states[0] == s';
      } else {
        assert t.states[i] == rest.states[i - 1] && t.visited[i] == rest.visited[i - 1];
        assert Followed(g, node, route, rest, oracle, k + 1, i - 1, i);
      }
    }
  }

  /** The trace of a run is its node-by-node history. */
  lemma {:induction false} ExecIsHistory<N, R, S, A>(
    g: Graph<N, R>, node: (N, S, A) -> S, route: (R, S, A) -> string,
    cur: N, s: S, oracle: nat -> A, k: nat, budget: nat)
    requires k <= budget
    ensures IsHistory(g, node, route, Exec(g, node, route, cur, s, oracle, k, budget), oracle, k)
    decreases budget - k
  {
    var t := Exec(g, node, route, cur, s, oracle, k, budget);
    if k < budget {
      var s' := node(cur, s, oracle(k));
      if cur in g.edges {
        match Resolve(g.edges[cur], route, s', oracle(k))
        case Failure(e) =>
        case Success(End) =>
        case Success(To(next)) =>
          var rest := Exec(g, node, route, next, s', oracle, k + 1, budget);
          ExecIsHistory(g, node, route, next, s', oracle, k + 1, budget);
          HistoryCons(g, node, route, cur, s', oracle, k, rest, t);
      }
    }
  }

  /** A run finishes only by following an edge to the end from the last node it ran. */
  lemma {:induction false} ExecFinishesAtEnd<N, R, S, A>(
    g: Graph<N, R>, node: (N, S, A) -> S, route: (R, S, A) -> string,
    cur: N, s: S, oracle: nat -> A, k: nat, budget: nat)
    requires k <= budget
    ensures var t := Exec(g, node, route, cur, s, oracle, k, budget);
      t.outcome == Finished ==>
        && |t.visited| > 0
        && t.visited[|t.visited| - 1] in g.edges
        && Resolve(g.edges[t.visited[|t.visited| - 1]], route, t.final, oracle(k + |t.visited| - 1))
           == Success(End)
    decreases budget - k
  {
    if k < budget {
      var s' := node(cur, s, oracle(k));
      if cur in g.edges {
        match Resolve(g.edges[cur], route, s', oracle(k))
        case Failure(e) =>
        case Success(End) =>
        case Success(To(next)) =>
          ExecFinishesAtEnd(g, node, route, next, s', oracle, k + 1, budget);
      }
    }
  }
}
