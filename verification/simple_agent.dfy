/** The linear baseline agent (simple_agent/graph.py and simple_agent/nodes.py): retrieve
    with the raw question, then generate, then stop. It runs on the same interpreter as the
    adaptive agent. */
module SimpleAgent {
  import opened Wrappers
  import opened Text
  import opened Engine

  /** simple_agent's `GraphState`. */
  datatype SimpleState = SimpleState(question: Option<string>, generation: Option<string>, documents: seq<string>)

  /** The dictionary a node returns. */
  datatype SimpleUpdate = SimpleUpdate(generation: Option<string>, documents: Option<seq<string>>)

  function ApplySimple(s: SimpleState, u: SimpleUpdate): SimpleState {
    SimpleState(s.question, if u.generation.Some? then u.generation else s.generation, u.documents.GetOr(s.documents))
  }

  /** The retriever (page contents for a query) and the generation chain
      (context, question). */
  datatype SimpleOracles = SimpleOracles(
    retrieve: Option<string> -> seq<string>,
    generate: (string, Option<string>) -> string)

  datatype SimpleNode = RetrievalNode | GeneratorNode {
    function Name(): string {
      match this
      case RetrievalNode => "retrieval_node"
      case GeneratorNode => "generator_node"
    }
  }

  /** The baseline graph has no conditional edge, so no router is ever asked. */
  datatype NoRouter = NoRouter

  /** `retriever_node`: append the passages retrieved for the raw question. */
  function RetrieverNode(s: SimpleState, a: SimpleOracles): (u: SimpleUpdate)
    ensures u.generation.None? && u.documents.Some?
    ensures var r := ApplySimple(s, u);
      && s.documents <= r.documents && r.documents[|s.documents|..] == a.retrieve(s.question)
      && r.question == s.question && r.generation == s.generation
  {
    SimpleUpdate(None, Some(s.documents + a.retrieve(s.question)))
  }

  /** `generation_node`: answer from the documents joined by blank lines. */
  function GenerationNode(s: SimpleState, a: SimpleOracles): (u: SimpleUpdate)
    ensures u.documents.None? && u.generation.Some?
    ensures ApplySimple(s, u) == s.(generation := Some(a.generate(Join(s.documents, "\n\n"), s.question)))
  {
    SimpleUpdate(Some(a.generate(Join(s.documents, "\n\n"), s.question)), None)
  }

  function SimpleStep(n: SimpleNode, s: SimpleState, a: SimpleOracles): SimpleState {
    match n
    case RetrievalNode => ApplySimple(s, RetrieverNode(s, a))
    case GeneratorNode => ApplySimple(s, GenerationNode(s, a))
  }

  function NoRoute(r: NoRouter, s: SimpleState, a: SimpleOracles): string {
    ""
  }

  /** `build_rag_pipeline`: START -> retrieval_node -> generator_node -> END. */
  function SimplePipeline(): Graph<SimpleNode, NoRouter> {
    Graph(Static(To(RetrievalNode)),
          map[RetrievalNode := Static(To(GeneratorNode)), GeneratorNode := Static(End)])
  }

  function SimpleRun(question: string, oracle: nat -> SimpleOracles, budget: nat): Trace<SimpleNode, SimpleState> {
    Engine.Run(SimplePipeline(), SimpleStep, NoRoute, SimpleState(Some(question), None, []), oracle, budget)
  }

  /** Every run with a budget of two steps or more retrieves once and then generates once
      from what was retrieved, and ends; a smaller budget is exceeded. */
  lemma SimpleRunIsLinear(question: string, oracle: nat -> SimpleOracles, budget: nat)
    ensures var t := SimpleRun(question, oracle, budget);
      && (budget >= 2 ==>
            && t.outcome == Finished
            && t.visited == [RetrievalNode, GeneratorNode]
            && t.final.documents == oracle(0).retrieve(Some(question))
            && t.final.generation == Some(oracle(1).generate(Join(t.final.documents, "\n\n"), Some(question))))
      && (budget < 2 ==> t.outcome == BudgetExceeded && |t.visited| == budget)
  {
    var g := SimplePipeline();
    var s0 := SimpleState(Some(question), None, []);
    assert g.edges[RetrievalNode] == Static(To(GeneratorNode));
    assert g.edges[GeneratorNode] == Static(End);
    var t := Exec(g, SimpleStep, NoRoute, RetrievalNode, s0, oracle, 0, budget);
    assert SimpleRun(question, oracle, budget) == t;
    if budget >= 1 {
      var s1 := SimpleStep(RetrievalNode, s0, oracle(0));
      var rest := Exec(g, SimpleStep, NoRoute, GeneratorNode, s1, oracle, 1, budget);
      assert t == Trace(rest.outcome, [RetrievalNode] + rest.visited, [s1] + rest.states, rest.final);
      assert s1.documents == oracle(0).retrieve(Some(question));
      if budget >= 2 {
        var s2 := SimpleStep(GeneratorNode, s1, oracle(1));
        assert rest == Trace(Finished, [GeneratorNode], [s2], s2);
      } else {
        assert rest.visited == [];
      }
    }
  }
}
