/** The adaptive agent's graph (`_build_pipeline` of complex_agent/agent.py): the eleven
    registered nodes, the literal edge tables, and the run of the interpreter over them.
    The lemmas below hold for every oracle and every step budget. */
module ComplexAgent {
  import opened Wrappers
  import opened Labels
  import opened GraphStateModel
  import opened ComplexNodes
  import opened Engine

  /** The nodes registered with `graph.add_node`. The node dictionary stores the query
      critic under "generation_feedback_node" and the answer critic under
      "generation_feedback", and the graph registers each under the other's name, so the
      two swaps cancel: `QueryCritique` runs the query critic and `AnswerCritique` the
      answer critic. */
  datatype Node =
    | DbRewrite | Retrieve | Generate | QueryCritique | AnswerCritique | SimpleQuestion
    | WebRewrite | WebRetrieve | GiveUp | FilterDocs | ExtractKnowledge
  {
    /** The name the node is registered under. */
    function Name(): string {
      match this
      case DbRewrite => "db_query_rewrite_node"
      case Retrieve => "retrieval_node"
      case Generate => "generator_node"
      case QueryCritique => "query_feedback_node"
      case AnswerCritique => "generation_feedback_node"
      case SimpleQuestion => "simple_question_node"
      case WebRewrite => "websearch_query_rewriting_node"
      case WebRetrieve => "web_search_node"
      case GiveUp => "give_up_node"
      case FilterDocs => "filter_docs_node"
      case ExtractKnowledge => "extract_knowledge_node"
    }
  }

  /** The four routing functions given to `add_conditional_edges`. */
  datatype RouterId = QuestionRouter | AnswerEvaluation | SearchModeRouter | DocumentValidation

  /** Run a node and merge its returned dictionary into the state. */
  function Step(n: Node, s: GraphState, a: Oracles): GraphState {
    Apply(s, match n
      case DbRewrite => DbQueryRewritingNode(s, a)
      case Retrieve => RetrieverNode(s, a)
      case Generate => GenerationNode(s, a)
      case QueryCritique => QueryFeedbackNode(s, a)
      case AnswerCritique => GenerationFeedbackNode(s, a)
      case SimpleQuestion => SimpleQuestionNode(s, a)
      case WebRewrite => WebsearchQueryRewritingNode(s, a)
      case WebRetrieve => WebSearchNode(s, a)
      case GiveUp => GiveUpNode(s, a)
      case FilterDocs => FilterRelevantDocumentsNode(s, a)
      case ExtractKnowledge => KnowledgeExtractorNode(s, a))
  }

  /** Ask a router for its label. */
  function RouteOf(c: Config, r: RouterId, s: GraphState, a: Oracles): string {
    match r
    case QuestionRouter => RouterNode(s, a)
    case AnswerEvaluation => AnswerEvaluationNode(c, s, a)
    case SearchModeRouter => SearchModeNode(s)
    case DocumentValidation => RelevantDocumentsValidationNode(c, s)
  }

  function Router(c: Config): (RouterId, GraphState, Oracles) -> string {
    (r: RouterId, s: GraphState, a: Oracles) => RouteOf(c, r, s, a)
  }

  function StartTable(): map<string, Target<Node>> {
    map["vectorstore" := To(DbRewrite), "websearch" := To(WebRewrite), "QA_LM" := To(SimpleQuestion)]
  }

  function EvaluationTable(): map<string, Target<Node>> {
    map["useful" := End, "not relevant" := To(QueryCritique),
        "hallucination" := To(AnswerCritique), "max_generation_reached" := To(GiveUp)]
  }

  function SearchModeTable(): map<string, Target<Node>> {
    map["vectorstore" := To(DbRewrite), "websearch" := To(WebRewrite)]
  }

  function ValidationTable(): map<string, Target<Node>> {
    map["knowledge_extraction" := To(ExtractKnowledge), "websearch" := To(WebRewrite),
        "vectorstore" := To(DbRewrite), "max_db_search" := To(WebRewrite), "max_websearch" := To(GiveUp)]
  }

  function Edges(): map<Node, Edge<Node, RouterId>> {
    map[
      DbRewrite := Static(To(Retrieve)),
      Retrieve := Static(To(FilterDocs)),
      ExtractKnowledge := Static(To(Generate)),
      WebRewrite := Static(To(WebRetrieve)),
      WebRetrieve := Static(To(FilterDocs)),
      AnswerCritique := Static(To(Generate)),
      SimpleQuestion := Static(End),
      GiveUp := Static(End),
      Generate := Conditional(AnswerEvaluation, EvaluationTable()),
      QueryCritique := Conditional(SearchModeRouter, SearchModeTable()),
      FilterDocs := Conditional(DocumentValidation, ValidationTable())]
  }

  function Pipeline(): Graph<Node, RouterId> {
    Graph(Conditional(QuestionRouter, StartTable()), Edges())
  }

  /** `pipeline.invoke({"question": question})` under an explicit step budget. */
  function Run(c: Config, question: string, oracle: nat -> Oracles, budget: nat): Trace<Node, GraphState> {
    Engine.Run(Pipeline(), Step, Router(c), Fresh(Some(question)), oracle, budget)
  }

  /** The search mode a route leads to. */
  function RouteMode(r: Route): SearchMode {
    match r
    case VectorStoreRoute => VectorStore
    case WebSearchRoute => WebSearch
    case QaRoute => QaLm
  }

  /** The mode a node leaves behind when it runs in the initial question-answering mode. */
  function ModeSetBy(n: Node): SearchMode {
    match n
    case DbRewrite => VectorStore
    case WebRewrite => WebSearch
    case _ => QaLm
  }

  /** What holds of the node about to run and the state it runs on, on every run. */
  ghost predicate Reachable(c: Config, n: Node, s: GraphState) {
    && (s.searchMode == QaLm ==>
          && (n == DbRewrite || n == WebRewrite || n == SimpleQuestion)
          && s.retrievalNum == 0 && s.generationNum == 0 && s.documents == [])
    && (s.searchMode == VectorStore ==> n != WebRewrite && n != SimpleQuestion)
    && (s.searchMode == WebSearch ==> n != DbRewrite && n != SimpleQuestion)
    && s.generationNum <= c.maxGenerations + 1
    && (s.generationNum > c.maxGenerations ==> n == GiveUp)
  }

  function GenerationsIn(vs: seq<Node>): nat {
    if |vs| == 0 then 0 else (if vs[0] == Generate then 1 else 0) + GenerationsIn(vs[1..])
  }

  function RetrievalsIn(vs: seq<Node>): nat {
    if |vs| == 0 then 0 else (if vs[0] == Retrieve || vs[0] == WebRetrieve then 1 else 0) + RetrievalsIn(vs[1..])
  }

  /** The nodes whose outgoing edge can lead to the end. */
  predicate Terminal(n: Node) {
    n == Generate || n == SimpleQuestion || n == GiveUp
  }

  /** The start router always produces a label of the start table. */
  lemma StartResolves(c: Config, s: GraphState, a: Oracles)
    ensures Resolve(Pipeline().start, Router(c), s, a)
         == Success(To(match a.route(s.question)
                       case VectorStoreRoute => DbRewrite
                       case WebSearchRoute => WebRewrite
                       case QaRoute => SimpleQuestion))
  {
  }

  /** What one step from `n` on `s` guarantees: the edge lookup succeeds, the next
      configuration is reachable again, the mode stays once chosen, and only generation and
      retrieval nodes move their counters, by exactly one. */
  ghost predicate StepOk(c: Config, n: Node, s: GraphState, a: Oracles) {
    var s' := Step(n, s, a);
    && n in Edges()
    && Resolve(Edges()[n], Router(c), s', a).Success?
    && (Resolve(Edges()[n], Router(c), s', a).value == End ==> Terminal(n))
    && (Resolve(Edges()[n], Router(c), s', a).value.To? ==>
          Reachable(c, Resolve(Edges()[n], Router(c), s', a).value.node, s'))
    && s'.searchMode == (if s.searchMode == QaLm then ModeSetBy(n) else s.searchMode)
    && s'.generationNum == s.generationNum + (if n == Generate then 1 else 0)
    && s'.retrievalNum == s.retrievalNum + (if n == Retrieve || n == WebRetrieve then 1 else 0)
  }

  lemma StepSearchSide(c: Config, n: Node, s: GraphState, a: Oracles)
    requires Reachable(c, n, s)
    requires n == DbRewrite || n == Retrieve || n == WebRewrite || n == WebRetrieve
    ensures StepOk(c, n, s, a)
  {
    match n
    case DbRewrite =>
      assert Edges()[n] == Static(To(Retrieve));
    case Retrieve =>
      assert Edges()[n] == Static(To(FilterDocs));
    case WebRewrite =>
      assert Edges()[n] == Static(To(WebRetrieve));
    case WebRetrieve =>
      assert Edges()[n] == Static(To(FilterDocs));
  }

  lemma StepAnswerSide(c: Config, n: Node, s: GraphState, a: Oracles)
    requires Reachable(c, n, s)
    requires n == AnswerCritique || n == SimpleQuestion || n == GiveUp || n == ExtractKnowledge
    ensures StepOk(c, n, s, a)
  {
    match n
    case AnswerCritique =>
      assert Edges()[n] == Static(To(Generate));
    case SimpleQuestion =>
      assert Edges()[n] == Static(End);
    case GiveUp =>
      assert Edges()[n] == Static(End);
    case ExtractKnowledge =>
      assert Edges()[n] == Static(To(Generate));
  }

  lemma StepGenerate(c: Config, s: GraphState, a: Oracles)
    requires Reachable(c, Generate, s)
    ensures StepOk(c, Generate, s, a)
  {
    var s' := Step(Generate, s, a);
    assert Edges()[Generate] == Conditional(AnswerEvaluation, EvaluationTable());
    var l := AnswerEvaluationNode(c, s', a);
    assert l == "useful" || l == "not relevant" || l == "hallucination" || l == "max_generation_reached";
  }

  lemma StepQueryCritique(c: Config, s: GraphState, a: Oracles)
    requires Reachable(c, QueryCritique, s)
    ensures StepOk(c, QueryCritique, s, a)
  {
    var s' := Step(QueryCritique, s, a);
    assert Edges()[QueryCritique] == Conditional(SearchModeRouter, SearchModeTable());
    assert s'.searchMode == s.searchMode;
  }

  lemma StepFilterDocs(c: Config, s: GraphState, a: Oracles)
    requires Reachable(c, FilterDocs, s)
    ensures StepOk(c, FilterDocs, s, a)
  {
    var s' := Step(FilterDocs, s, a);
    assert Edges()[FilterDocs] == Conditional(DocumentValidation, ValidationTable());
    var l := RelevantDocumentsValidationNode(c, s');
    assert l == "knowledge_extraction" || l == "max_websearch" || l == "vectorstore" || l == "websearch";
  }

  lemma StepPreserves(c: Config, n: Node, s: GraphState, a: Oracles)
    requires Reachable(c, n, s)
    ensures StepOk(c, n, s, a)
  {
    match n
    case Generate => StepGenerate(c, s, a);
    case QueryCritique => StepQueryCritique(c, s, a);
    case FilterDocs => StepFilterDocs(c, s, a);
    case DbRewrite => StepSearchSide(c, n, s, a);
    case Retrieve => StepSearchSide(c, n, s, a);
    case WebRewrite => StepSearchSide(c, n, s, a);
    case WebRetrieve => StepSearchSide(c, n, s, a);
    case _ => StepAnswerSide(c, n, s, a);
  }

  /** Everything the step invariant gives for the rest of a run started from a reachable
      configuration. */
  ghost predicate RunOk(c: Config, n: Node, s: GraphState, t: Trace<Node, GraphState>) {
    && |t.visited| == |t.states|
    && (t.outcome == Finished || t.outcome == BudgetExceeded)
    && (t.outcome == Finished ==> |t.visited| > 0 && Terminal(t.visited[|t.visited| - 1]))
    && t.final.generationNum == s.generationNum + GenerationsIn(t.visited)
    && t.final.retrievalNum == s.retrievalNum + RetrievalsIn(t.visited)
    && (forall i :: 0 <= i < |t.states| ==> t.states[i].generationNum <= c.maxGenerations + 1)
    && (forall i :: 0 <= i < |t.states| ==>
          t.states[i].searchMode == (if s.searchMode == QaLm then ModeSetBy(n) else s.searchMode))
  }

  /** The run facts extend from the rest of a run to the run one step earlier. */
  lemma ConsOk(c: Config, n: Node, s: GraphState, s': GraphState, m: Node,
               rest: Trace<Node, GraphState>, t: Trace<Node, GraphState>)
    requires RunOk(c, m, s', rest) && Reachable(c, m, s')
    requires s'.searchMode == (if s.searchMode == QaLm then ModeSetBy(n) else s.searchMode)
    requires s'.searchMode != QaLm
    requires s'.generationNum == s.generationNum + (if n == Generate then 1 else 0)
    requires s'.retrievalNum == s.retrievalNum + (if n == Retrieve || n == WebRetrieve then 1 else 0)
    requires t.outcome == rest.outcome && t.visited == [n] + rest.visited
    requires t.states == [s'] + rest.states && t.final == rest.final
    ensures RunOk(c, n, s, t)
  {
    assert t.visited[1..] == rest.visited;
    forall i | 0 <= i < |t.states|
      ensures t.states[i].generationNum <= c.maxGenerations + 1
      ensures t.states[i].searchMode == (if s.searchMode == QaLm then ModeSetBy(n) else s.searchMode)
    {
      if i > 0 {
        assert t.states[i] == rest.states[i - 1];
      }
    }
    if t.outcome == Finished {
      assert t.visited[|t.visited| - 1] == rest.visited[|rest.visited| - 1];
    }
  }

  /** The run facts hold of a run that ends right after its first node. */
  lemma LastOk(c: Config, n: Node, s: GraphState, s': GraphState, t: Trace<Node, GraphState>)
    requires Reachable(c, n, s) && Terminal(n)
    requires s'.searchMode == (if s.searchMode == QaLm then ModeSetBy(n) else s.searchMode)
    requires s'.generationNum == s.generationNum + (if n == Generate then 1 else 0)
    requires s'.retrievalNum == s.retrievalNum + (if n == Retrieve || n == WebRetrieve then 1 else 0)
    requires t == Trace(Finished, [n], [s'], s')
    ensures RunOk(c, n, s, t)
  {
  }

  /** The first node of the remaining run leads straight to the end. */
  lemma ExecEndsHere(c: Config, n: Node, s: GraphState, s': GraphState, oracle: nat -> Oracles, k: nat, budget: nat)
    requires k < budget && Reachable(c, n, s)
    requires s' == Step(n, s, oracle(k)) && StepOk(c, n, s, oracle(k))
    requires Resolve(Edges()[n], Router(c), s', oracle(k)) == Success(End)
    ensures RunOk(c, n, s, Exec(Pipeline(), Step, Router(c), n, s, oracle, k, budget))
  {
    assert Pipeline().edges == Edges();
    ExecEnds(Pipeline(), Step, Router(c), n, s, oracle, k, budget);
    LastOk(c, n, s, s', Exec(Pipeline(), Step, Router(c), n, s, oracle, k, budget));
  }

  /** The first node of the remaining run leads to node `m`, from which the facts hold. */
  lemma ExecContinues(c: Config, n: Node, s: GraphState, s': GraphState, oracle: nat -> Oracles,
                      k: nat, budget: nat, m: Node)
    requires k < budget && n in Edges() && s' == Step(n, s, oracle(k))
    requires Resolve(Edges()[n], Router(c), s', oracle(k)) == Success(To(m))
    requires Reachable(c, m, s')
    requires s'.searchMode == (if s.searchMode == QaLm then ModeSetBy(n) else s.searchMode)
    requires s'.searchMode != QaLm
    requires s'.generationNum == s.generationNum + (if n == Generate then 1 else 0)
    requires s'.retrievalNum == s.retrievalNum + (if n == Retrieve || n == WebRetrieve then 1 else 0)
    requires RunOk(c, m, s', Exec(Pipeline(), Step, Router(c), m, s', oracle, k + 1, budget))
    ensures RunOk(c, n, s, Exec(Pipeline(), Step, Router(c), n, s, oracle, k, budget))
  {
    assert Pipeline().edges == Edges();
    ExecSteps(Pipeline(), Step, Router(c), n, s, oracle, k, budget, m);
    ConsOk(c, n, s, s', m, Exec(Pipeline(), Step, Router(c), m, s', oracle, k + 1, budget),
           Exec(Pipeline(), Step, Router(c), n, s, oracle, k, budget));
  }

  /** What the step invariant gives when the edge leads on to node `m`. */
  lemma ContinueFacts(c: Config, n: Node, s: GraphState, a: Oracles, s': GraphState, m: Node)
    requires Reachable(c, n, s) && StepOk(c, n, s, a) && s' == Step(n, s, a)
    requires Resolve(Edges()[n], Router(c), s', a) == Success(To(m))
    ensures n in Edges() && Reachable(c, m, s')
    ensures s'.searchMode == (if s.searchMode == QaLm then ModeSetBy(n) else s.searchMode)
    ensures s'.searchMode != QaLm
    ensures s'.generationNum == s.generationNum + (if n == Generate then 1 else 0)
    ensures s'.retrievalNum == s.retrievalNum + (if n == Retrieve || n == WebRetrieve then 1 else 0)
  {
    assert Edges()[SimpleQuestion] == Static(End);
  }

  lemma {:induction false} ExecFacts(c: Config, n: Node, s: GraphState, oracle: nat -> Oracles, k: nat, budget: nat)
    requires k <= budget && Reachable(c, n, s)
    ensures RunOk(c, n, s, Exec(Pipeline(), Step, Router(c), n, s, oracle, k, budget))
    decreases budget - k
  {
    if k < budget {
      var s' := Step(n, s, oracle(k));
      StepPreserves(c, n, s, oracle(k));
      var r := Resolve(Edges()[n], Router(c), s', oracle(k));
      if r.value.End? {
        ExecEndsHere(c, n, s, s', oracle, k, budget);
      } else {
        ContinueFacts(c, n, s, oracle(k), s', r.value.node);
        ExecFacts(c, r.value.node, s', oracle, k + 1, budget);
        ExecContinues(c, n, s, s', oracle, k, budget, r.value.node);
      }
    }
  }

  /** The first node a run executes, chosen by the start router. */
  function FirstNode(r: Route): Node {
    match r
    case VectorStoreRoute => DbRewrite
    case WebSearchRoute => WebRewrite
    case QaRoute => SimpleQuestion
  }

  /** On every run and every step budget: no edge lookup ever misses; a run that stops
      without exhausting the budget stops after a generation, a direct answer or a
      concession; at most MAX_GENERATIONS + 1 generations run, and `generation_num` counts
      them; `retrieval_num` counts the retrievals; and the search mode chosen by the first
      node is the mode of every state of the run. */
  lemma RunFacts(c: Config, question: string, oracle: nat -> Oracles, budget: nat)
    ensures var t := Run(c, question, oracle, budget);
      && (t.outcome == Finished || t.outcome == BudgetExceeded)
      && (t.outcome == Finished ==> |t.visited| > 0 && Terminal(t.visited[|t.visited| - 1]))
      && t.final.generationNum == GenerationsIn(t.visited)
      && GenerationsIn(t.visited) <= c.maxGenerations + 1
      && t.final.retrievalNum == RetrievalsIn(t.visited)
      && forall i :: 0 <= i < |t.states| ==> t.states[i].searchMode == RouteMode(oracle(0).route(Some(question)))
  {
    var s0 := Fresh(Some(question));
    var first := FirstNode(oracle(0).route(Some(question)));
    StartResolves(c, s0, oracle(0));
    assert Reachable(c, first, s0);
    var t := Exec(Pipeline(), Step, Router(c), first, s0, oracle, 0, budget);
    assert Run(c, question, oracle, budget) == t;
    ExecFacts(c, first, s0, oracle, 0, budget);
    assert s0.searchMode == QaLm && ModeSetBy(first) == RouteMode(oracle(0).route(Some(question)));
    if |t.states| > 0 {
      assert t.final == t.states[|t.states| - 1];
    }
  }

  /** The end is reached only from a useful (grounded and relevant) generation, from the
      direct answer, or from the concession. */
  lemma EndOnlyVia(c: Config, n: Node, s: GraphState, a: Oracles)
    ensures n in Edges()
    ensures Resolve(Edges()[n], Router(c), s, a) == Success(End) <==>
      n == SimpleQuestion || n == GiveUp || (n == Generate && Grounded(s, a) && Relevant(s, a))
  {
    assert Edges()[n] == match n
      case Generate => Conditional(AnswerEvaluation, EvaluationTable())
      case QueryCritique => Conditional(SearchModeRouter, SearchModeTable())
      case FilterDocs => Conditional(DocumentValidation, ValidationTable())
      case SimpleQuestion => Static(End)
      case GiveUp => Static(End)
      case DbRewrite => Static(To(Retrieve))
      case Retrieve => Static(To(FilterDocs))
      case ExtractKnowledge => Static(To(Generate))
      case WebRewrite => Static(To(WebRetrieve))
      case WebRetrieve => Static(To(FilterDocs))
      case AnswerCritique => Static(To(Generate));
  }

  /** A run begins with the node the start router picks, on the fresh state. */
  lemma RunStarts(c: Config, question: string, oracle: nat -> Oracles, budget: nat)
    ensures Run(c, question, oracle, budget)
         == Exec(Pipeline(), Step, Router(c), FirstNode(oracle(0).route(Some(question))),
                 Fresh(Some(question)), oracle, 0, budget)
  {
    StartResolves(c, Fresh(Some(question)), oracle(0));
  }

  /** A finished run ended on a useful generation, a direct answer or a concession. */
  lemma FinishedRunEndsWell(c: Config, question: string, oracle: nat -> Oracles, budget: nat)
    ensures var t := Run(c, question, oracle, budget);
      t.outcome == Finished ==>
        var last := t.visited[|t.visited| - 1];
        && |t.visited| > 0
        && (last == SimpleQuestion || last == GiveUp
            || (last == Generate && Grounded(t.final, oracle(|t.visited| - 1)) && Relevant(t.final, oracle(|t.visited| - 1))))
  {
    var t := Run(c, question, oracle, budget);
    var n0, s0 := FirstNode(oracle(0).route(Some(question))), Fresh(Some(question));
    RunStarts(c, question, oracle, budget);
    FinishedExecEndsWell(c, n0, s0, oracle, budget, t);
  }

  lemma FinishedExecEndsWell(c: Config, n: Node, s: GraphState, oracle: nat -> Oracles, budget: nat, t: Trace<Node, GraphState>)
    requires t == Exec(Pipeline(), Step, Router(c), n, s, oracle, 0, budget)
    ensures t.outcome == Finished ==>
        var last := t.visited[|t.visited| - 1];
        && |t.visited| > 0
        && (last == SimpleQuestion || last == GiveUp
            || (last == Generate && Grounded(t.final, oracle(|t.visited| - 1)) && Relevant(t.final, oracle(|t.visited| - 1))))
  {
    ExecFinishesAtEnd(Pipeline(), Step, Router(c), n, s, oracle, 0, budget);
    if t.outcome == Finished {
      EndOnlyVia(c, t.visited[|t.visited| - 1], t.final, oracle(|t.visited| - 1));
    }
  }

  /** The question-answering route runs the direct answer only, retrieves nothing and ends
      in the question-answering mode. */
  lemma QaRouteAnswersDirectly(c: Config, question: string, oracle: nat -> Oracles, budget: nat)
    requires oracle(0).route(Some(question)) == QaRoute
    requires budget >= 1
    ensures var t := Run(c, question, oracle, budget);
      && t.outcome == Finished
      && t.visited == [SimpleQuestion]
      && t.final.documents == [] && t.final.retrievalNum == 0
      && t.final.searchMode == QaLm
      && t.final.generation == Some(oracle(0).simpleAnswer(Some(question)))
  {
    var s0 := Fresh(Some(question));
    StartResolves(c, s0, oracle(0));
    assert Edges()[SimpleQuestion] == Static(End);
  }

  /** Documents are filtered and queries criticised only in the vector-store or web-search
      mode, never in the initial question-answering mode. */
  lemma FilteringHasSearchMode(c: Config, question: string, oracle: nat -> Oracles, budget: nat)
    ensures var t := Run(c, question, oracle, budget);
      forall i :: 0 <= i < |t.visited| && (t.visited[i] == FilterDocs || t.visited[i] == QueryCritique) ==>
        t.states[i].searchMode == VectorStore || t.states[i].searchMode == WebSearch
  {
    var t := Run(c, question, oracle, budget);
    RunFacts(c, question, oracle, budget);
    if oracle(0).route(Some(question)) == QaRoute && budget >= 1 {
      QaRouteAnswersDirectly(c, question, oracle, budget);
    }
  }

  /** The configurations of the vector-store loop that never finds anything. */
  ghost predicate InEmptyStoreLoop(n: Node, s: GraphState) {
    && s.documents == []
    && ((n == DbRewrite && s.searchMode != WebSearch)
        || ((n == Retrieve || n == FilterDocs) && s.searchMode == VectorStore))
  }

  lemma EmptyStoreStep(c: Config, n: Node, s: GraphState, a: Oracles)
    requires InEmptyStoreLoop(n, s)
    requires a.retrieve(s.rewrittenQuestion) == []
    ensures n in Edges()
    ensures var s' := Step(n, s, a);
      && Resolve(Edges()[n], Router(c), s', a).Success?
      && Resolve(Edges()[n], Router(c), s', a).value.To?
      && InEmptyStoreLoop(Resolve(Edges()[n], Router(c), s', a).value.node, s')
  {
    var s' := Step(n, s, a);
    match n
    case DbRewrite =>
      assert Edges()[n] == Static(To(Retrieve));
    case Retrieve =>
      assert Edges()[n] == Static(To(FilterDocs));
    case FilterDocs =>
      assert Edges()[n] == Conditional(DocumentValidation, ValidationTable());
      assert RelevantDocumentsValidationNode(c, s') == "vectorstore";
  }

  /** A store that never answers a passage. */
  ghost predicate EmptyStore(a: Oracles) {
    forall q :: a.retrieve(q) == []
  }

  lemma EmptyStoreLoops(c: Config)
    ensures Loops(Pipeline(), Step, Router(c), InEmptyStoreLoop, EmptyStore)
  {
    forall n, s, a | InEmptyStoreLoop(n, s) && EmptyStore(a)
      ensures LoopStep(Pipeline(), Step, Router(c), InEmptyStoreLoop, n, s, a)
    {
      assert a.retrieve(s.rewrittenQuestion) == [];
      EmptyStoreStep(c, n, s, a);
    }
  }

  /** A vector-store run whose store never returns a passage cycles through rewrite,
      retrieval and filtering until the step budget runs out: the comparison against
      'vectorsearch' keeps it from ever escalating to web search or giving up. */
  lemma EmptyStoreExhaustsBudget(c: Config, question: string, oracle: nat -> Oracles, budget: nat)
    requires oracle(0).route(Some(question)) == VectorStoreRoute
    requires forall j: nat, q: Option<string> :: oracle(j).retrieve(q) == []
    ensures var t := Run(c, question, oracle, budget);
      t.outcome == BudgetExceeded
      && |t.visited| == budget
      && forall i :: 0 <= i < |t.visited| ==> t.visited[i] in {DbRewrite, Retrieve, FilterDocs}
  {
    var s0 := Fresh(Some(question));
    StartResolves(c, s0, oracle(0));
    assert forall j :: EmptyStore(oracle(j));
    EmptyStoreFromStart(c, s0, oracle, budget);
  }

  /** The same run, from the first vector-store rewrite on. */
  lemma EmptyStoreFromStart(c: Config, s0: GraphState, oracle: nat -> Oracles, budget: nat)
    requires s0.documents == [] && s0.searchMode == QaLm
    requires forall j :: EmptyStore(oracle(j))
    ensures var t := Exec(Pipeline(), Step, Router(c), DbRewrite, s0, oracle, 0, budget);
      t.outcome == BudgetExceeded
      && forall i :: 0 <= i < |t.visited| ==> t.visited[i] in {DbRewrite, Retrieve, FilterDocs}
  {
    EmptyStoreLoops(c);
    ExecLoops(Pipeline(), Step, Router(c), InEmptyStoreLoop, EmptyStore,
              {DbRewrite, Retrieve, FilterDocs}, DbRewrite, s0, oracle, 0, budget);
  }

  /** The web search finds nothing for query `q`: it raises, or answers no passage. */
  predicate NoWebPassages(a: Oracles, q: Option<string>) {
    a.webSearch(q).Failure? || WebResults(a.webSearch(q).value) == []
  }

  /** The configurations of a web-search run that never finds anything. */
  ghost predicate InEmptyWebLoop(c: Config, n: Node, s: GraphState) {
    && s.documents == []
    && match n
       case WebRewrite =>
         (s.searchMode == QaLm && s.retrievalNum == 0)
         || (s.searchMode == WebSearch && s.retrievalNum <= c.maxRetrievals)
       case WebRetrieve => s.searchMode == WebSearch && s.retrievalNum <= c.maxRetrievals
       case FilterDocs => s.searchMode == WebSearch && 1 <= s.retrievalNum <= c.maxRetrievals + 1
       case GiveUp => s.searchMode == WebSearch && s.retrievalNum == c.maxRetrievals + 1
       case _ => false
  }

  /** How many nodes such a run still executes, this one included. */
  function WebStepsLeft(c: Config, n: Node, s: GraphState): nat {
    var left := if s.retrievalNum <= c.maxRetrievals + 1 then c.maxRetrievals + 1 - s.retrievalNum else 0;
    match n
    case WebRewrite => 3 * left + 1
    case WebRetrieve => 3 * left
    case FilterDocs => if s.retrievalNum > c.maxRetrievals then 2 else 3 * left + 2
    case _ => 1
  }

  lemma EmptyWebStep(c: Config, n: Node, s: GraphState, a: Oracles, s': GraphState) returns (m: Node)
    requires InEmptyWebLoop(c, n, s) && n != GiveUp
    requires NoWebPassages(a, s.rewrittenQuestion)
    requires s' == Step(n, s, a)
    ensures n in Edges()
    ensures Resolve(Edges()[n], Router(c), s', a) == Success(To(m))
    ensures InEmptyWebLoop(c, m, s')
    ensures WebStepsLeft(c, m, s') + 1 == WebStepsLeft(c, n, s)
  {
    m := Resolve(Edges()[n], Router(c), s', a).value.node;
    match n
    case WebRewrite =>
      assert Edges()[n] == Static(To(WebRetrieve));
    case WebRetrieve =>
      assert Edges()[n] == Static(To(FilterDocs));
    case FilterDocs =>
      EmptyWebFilterStep(c, s, a, s');
  }

  lemma EmptyWebFilterStep(c: Config, s: GraphState, a: Oracles, s': GraphState)
    requires InEmptyWebLoop(c, FilterDocs, s)
    requires s' == Step(FilterDocs, s, a)
    ensures FilterDocs in Edges()
    ensures Resolve(Edges()[FilterDocs], Router(c), s', a).Success?
    ensures Resolve(Edges()[FilterDocs], Router(c), s', a).value.To?
    ensures var m := Resolve(Edges()[FilterDocs], Router(c), s', a).value.node;
      InEmptyWebLoop(c, m, s') && WebStepsLeft(c, m, s') + 1 == WebStepsLeft(c, FilterDocs, s)
  {
    assert Edges()[FilterDocs] == Conditional(DocumentValidation, ValidationTable());
    if s.retrievalNum > c.maxRetrievals {
      assert RelevantDocumentsValidationNode(c, s') == "max_websearch";
    } else {
      assert RelevantDocumentsValidationNode(c, s') == "websearch";
    }
  }

  /** Web searches that never find a passage, whatever the query. */
  ghost predicate EmptyWeb(a: Oracles) {
    forall q :: NoWebPassages(a, q)
  }

  /** Where such a run ends: on the concession, with every retrieval spent. */
  ghost predicate WebGaveUp(c: Config, n: Node, s: GraphState) {
    n == GiveUp && s.retrievalNum == c.maxRetrievals + 1
  }

  /** The loop, the steps left and the end above, as the function values the interpreter's
      lemmas take. */
  ghost function WebLoop(c: Config): (Node, GraphState) -> bool {
    (n, s) => InEmptyWebLoop(c, n, s)
  }

  function WebLeft(c: Config): (Node, GraphState) -> nat {
    (n, s) => WebStepsLeft(c, n, s)
  }

  ghost function WebEnd(c: Config): (Node, GraphState) -> bool {
    (n, s) => WebGaveUp(c, n, s)
  }

  lemma EmptyWebConverges(c: Config)
    ensures Converges(Pipeline(), Step, Router(c), WebLoop(c), EmptyWeb,
                      WebLeft(c), WebEnd(c))
  {
    forall n, s, a | InEmptyWebLoop(c, n, s) && EmptyWeb(a)
      ensures ConvergeStep(Pipeline(), Step, Router(c), WebLoop(c),
                           WebLeft(c), WebEnd(c), n, s, a)
    {
      if n == GiveUp {
        assert Pipeline().edges[GiveUp] == Static(End);
      } else {
        assert NoWebPassages(a, s.rewrittenQuestion);
        var m := EmptyWebStep(c, n, s, a, Step(n, s, a));
      }
    }
  }

  /** A web-search run whose searches never find a passage retrieves MAX_RETRIEVALS + 1
      times and then gives up: it ends after exactly 3 * (MAX_RETRIEVALS + 1) + 1 nodes
      when the budget allows that many, and exhausts the budget otherwise. */
  lemma EmptyWebGivesUpAfterRetries(c: Config, question: string, oracle: nat -> Oracles, budget: nat)
    requires oracle(0).route(Some(question)) == WebSearchRoute
    requires forall j: nat, q: Option<string> :: NoWebPassages(oracle(j), q)
    ensures var t := Run(c, question, oracle, budget);
      var steps := 3 * (c.maxRetrievals + 1) + 1;
      && (steps <= budget ==>
            && t.outcome == Finished && |t.visited| == steps
            && t.visited[|t.visited| - 1] == GiveUp
            && t.final.retrievalNum == c.maxRetrievals + 1)
      && (steps > budget ==> t.outcome == BudgetExceeded)
  {
    var s0 := Fresh(Some(question));
    StartResolves(c, s0, oracle(0));
    assert forall j :: EmptyWeb(oracle(j));
    EmptyWebFromStart(c, s0, oracle, budget);
  }

  /** The same run, from the first web rewrite on. */
  lemma EmptyWebFromStart(c: Config, s0: GraphState, oracle: nat -> Oracles, budget: nat)
    requires s0.documents == [] && s0.searchMode == QaLm && s0.retrievalNum == 0
    requires forall j :: EmptyWeb(oracle(j))
    ensures var t := Exec(Pipeline(), Step, Router(c), WebRewrite, s0, oracle, 0, budget);
      var steps := 3 * (c.maxRetrievals + 1) + 1;
      && t.outcome == (if steps <= budget then Finished else BudgetExceeded)
      && (t.outcome == Finished ==>
            && |t.visited| == steps
            && t.visited[|t.visited| - 1] == GiveUp
            && t.final.retrievalNum == c.maxRetrievals + 1)
  {
    EmptyWebConverges(c);
    assert WebLoop(c)(WebRewrite, s0);
    assert WebLeft(c)(WebRewrite, s0) == 3 * (c.maxRetrievals + 1) + 1;
    ExecConverges(Pipeline(), Step, Router(c), WebLoop(c), EmptyWeb, WebLeft(c), WebEnd(c), WebRewrite, s0, oracle, 0, budget);
  }
}
