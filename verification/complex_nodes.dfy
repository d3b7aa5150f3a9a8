/** The step functions and routers of the adaptive agent (the closures built in
    `_initialize_nodes` of complex_agent/agent.py), with every language-model chain, the
    vector-store retriever and the web-search tool replaced by the answers of an oracle.
    Each node returns the dictionary the source returns, as an `Update`. */
module ComplexNodes {
  import opened Wrappers
  import opened Text
  import opened Labels
  import opened GraphStateModel
  import opened Selection

  /** The agent parameters read from the configuration. */
  datatype Config = Config(maxRetrievals: nat, maxGenerations: nat, recursionLimit: nat)

  /** `agent_parameters.get(name, default)` for the three parameters the agent reads. */
  function ConfigFrom(parameters: map<string, nat>): (c: Config)
    ensures "max_retrievals" in parameters ==> c.maxRetrievals == parameters["max_retrievals"]
    ensures "max_retrievals" !in parameters ==> c.maxRetrievals == 3
    ensures "max_generations" in parameters ==> c.maxGenerations == parameters["max_generations"]
    ensures "max_generations" !in parameters ==> c.maxGenerations == 3
    ensures "recursion_limit" in parameters ==> c.recursionLimit == parameters["recursion_limit"]
    ensures "recursion_limit" !in parameters ==> c.recursionLimit == 50
  {
    Config(
      if "max_retrievals" in parameters then parameters["max_retrievals"] else 3,
      if "max_generations" in parameters then parameters["max_generations"] else 3,
      if "recursion_limit" in parameters then parameters["recursion_limit"] else 50)
  }

  /** One element of a list returned by the web-search tool. */
  datatype WebItem = DictItem(content: Option<string>, repr: string) | OtherItem(repr: string)

  /** What the web-search tool returns: a string, a list, or some other value (`repr` is
      its `str()`). */
  datatype WebOutput = TextOutput(text: string) | ListOutput(items: seq<WebItem>) | OtherOutput(repr: string)

  /** The text of one list item: a dictionary's "content" entry, else the item's `str()`. */
  function ItemText(item: WebItem): string {
    match item
    case DictItem(content, repr) => content.GetOr(repr)
    case OtherItem(repr) => repr
  }

  /** The passages a web-search answer contributes. */
  function WebResults(out: WebOutput): (r: seq<string>)
    ensures out.ListOutput? ==> |r| == |out.items| && forall i :: 0 <= i < |r| ==> r[i] == ItemText(out.items[i])
    ensures out.TextOutput? ==> r == [out.text]
    ensures out.OtherOutput? ==> r == [out.repr]
  {
    match out
    case TextOutput(text) => [text]
    case ListOutput(items) => seq(|items|, i requires 0 <= i < |items| => ItemText(items[i]))
    case OtherOutput(repr) => [repr]
  }

  /** The answers of every external service for one step. Each is a function of exactly the
      inputs the source passes to the chain, retriever or tool; web search may fail with an
      error message instead of answering. */
  datatype Oracles = Oracles(
    route: Option<string> -> Route,                                            // question_router(question)
    dbRewrite: (Option<string>, string) -> string,                             // (question, feedback)
    webRewrite: (Option<string>, string) -> string,                            // (question, feedback)
    retrieve: Option<string> -> seq<string>,                                   // page contents for a query
    webSearch: Option<string> -> Result<WebOutput, string>,                    // web_search_tool(query)
    gradeDocuments: (Option<string>, seq<string>) -> seq<Grade>,               // batch (question, document)
    extract: (Option<string>, seq<string>) -> seq<string>,                     // batch (question, document)
    generate: (string, Option<string>, string) -> string,                      // (context, question, feedback)
    gradeHallucination: (seq<string>, Option<string>) -> Grade,                // (documents, generation)
    gradeAnswer: (Option<string>, Option<string>) -> Grade,                    // (question, generation)
    generationFeedback: (Option<string>, string, Option<string>) -> string,    // (question, documents, generation)
    queryFeedback: (Option<string>, Option<string>, string, Option<string>) -> string,
    giveUp: Option<string> -> string,                                          // give_up_chain(question)
    simpleAnswer: Option<string> -> string)                                    // simple_question_chain(question)

  /** Python's `"{}".format(x)` for an optional string. */
  function Show(x: Option<string>): string {
    match x
    case Some(v) => v
    case None => "None"
  }

  function AnswerFeedback(generation: Option<string>, critique: string): string {
    "Feedback about the answer \"" + Show(generation) + "\": " + critique
  }

  function QueryFeedback(rewritten: Option<string>, critique: string): string {
    "Feedback about the query \"" + Show(rewritten) + "\": " + critique
  }

  function NoRelevantDocumentsFeedback(rewritten: Option<string>): string {
    QueryFeedback(rewritten, "did not generate any relevant documents.")
  }

  /** `retriever_node`: append the store's results for the rewritten query, in order, and
      count the retrieval. */
  function RetrieverNode(s: GraphState, a: Oracles): (u: Update)
    ensures u.Keys() == {DocumentsKey, RetrievalNumKey}
    ensures var r := Apply(s, u);
      && r.documents == s.documents + a.retrieve(s.rewrittenQuestion)
      && r.retrievalNum == s.retrievalNum + 1
      && r == s.(documents := r.documents, retrievalNum := r.retrievalNum)
  {
    NoChange().(documents := Some(s.documents + a.retrieve(s.rewrittenQuestion)),
                retrievalNum := Some(s.retrievalNum + 1))
  }

  /** `generation_node`: answer from the documents joined by blank lines and the answer
      critiques joined by newlines, and count the generation. */
  function GenerationNode(s: GraphState, a: Oracles): (u: Update)
    ensures u.Keys() == {GenerationKey, GenerationNumKey}
    ensures var r := Apply(s, u);
      && r.generation == Some(a.generate(Join(s.documents, "\n\n"), s.question, Join(s.generationFeedbacks, "\n")))
      && r.generationNum == s.generationNum + 1
      && r == s.(generation := r.generation, generationNum := r.generationNum)
  {
    NoChange().(
      generation := Some(a.generate(Join(s.documents, "\n\n"), s.question, Join(s.generationFeedbacks, "\n"))),
      generationNum := Some(s.generationNum + 1))
  }

  /** `db_query_rewriting_node`: rewrite the question for the vector store, using the query
      critiques so far, and switch to the vector-store mode. The retrieval count is kept. */
  function DbQueryRewritingNode(s: GraphState, a: Oracles): (u: Update)
    ensures u.Keys() == {RewrittenQuestionKey, SearchModeKey}
    ensures var r := Apply(s, u);
      && r.rewrittenQuestion == Some(a.dbRewrite(s.question, Join(s.queryFeedbacks, "\n")))
      && r.searchMode == VectorStore
      && r == s.(rewrittenQuestion := r.rewrittenQuestion, searchMode := VectorStore)
  {
    NoChange().(
      rewrittenQuestion := Some(a.dbRewrite(s.question, Join(s.queryFeedbacks, "\n"))),
      searchMode := Some(VectorStore))
  }

  /** `websearch_query_rewriting_node`: rewrite the question for web search and switch to
      the web-search mode; the retrieval count restarts at 0 when the previous mode was not
      web search and is kept otherwise. */
  function WebsearchQueryRewritingNode(s: GraphState, a: Oracles): (u: Update)
    ensures u.Keys() == {RewrittenQuestionKey, SearchModeKey, RetrievalNumKey}
    ensures var r := Apply(s, u);
      && r.rewrittenQuestion == Some(a.webRewrite(s.question, Join(s.queryFeedbacks, "\n")))
      && r.searchMode == WebSearch
      && (s.searchMode == WebSearch ==> r.retrievalNum == s.retrievalNum)
      && (s.searchMode != WebSearch ==> r.retrievalNum == 0)
      && r == s.(rewrittenQuestion := r.rewrittenQuestion, searchMode := WebSearch, retrievalNum := r.retrievalNum)
  {
    var count := if s.searchMode.Name() != "websearch" then 0 else s.retrievalNum;
    NoChange().(
      rewrittenQuestion := Some(a.webRewrite(s.question, Join(s.queryFeedbacks, "\n"))),
      searchMode := Some(WebSearch),
      retrievalNum := Some(count))
  }

  /** `web_search_node`: append the search results for the rewritten query and count the
      attempt; a failed search still counts but leaves the documents as they were. */
  function WebSearchNode(s: GraphState, a: Oracles): (u: Update)
    ensures a.webSearch(s.rewrittenQuestion).Success? ==> u.Keys() == {DocumentsKey, RetrievalNumKey}
    ensures a.webSearch(s.rewrittenQuestion).Failure? ==> u.Keys() == {RetrievalNumKey}
    ensures var r := Apply(s, u);
      && r.retrievalNum == s.retrievalNum + 1
      && s.documents <= r.documents
      && (a.webSearch(s.rewrittenQuestion).Success? ==>
            r.documents[|s.documents|..] == WebResults(a.webSearch(s.rewrittenQuestion).value))
      && (a.webSearch(s.rewrittenQuestion).Failure? ==> r.documents == s.documents)
      && r == s.(documents := r.documents, retrievalNum := r.retrievalNum)
  {
    match a.webSearch(s.rewrittenQuestion)
    case Success(out) =>
      NoChange().(documents := Some(s.documents + WebResults(out)), retrievalNum := Some(s.retrievalNum + 1))
    case Failure(_) =>
      NoChange().(retrievalNum := Some(s.retrievalNum + 1))
  }

  /** `filter_relevant_documents_node`: grade every document once and keep those graded
      relevant; when none is kept, record one critique of the query. */
  function FilterRelevantDocumentsNode(s: GraphState, a: Oracles): (u: Update)
    ensures u.Keys() == {DocumentsKey, QueryFeedbacksKey}
    ensures var r := Apply(s, u);
      && r.documents == KeepGraded(a.gradeDocuments(s.question, s.documents), s.documents)
      && (r.documents == [] ==> r.queryFeedbacks == s.queryFeedbacks + [NoRelevantDocumentsFeedback(s.rewrittenQuestion)])
      && (r.documents != [] ==> r.queryFeedbacks == s.queryFeedbacks)
      && r == s.(documents := r.documents, queryFeedbacks := r.queryFeedbacks)
  {
    var kept := KeepGraded(a.gradeDocuments(s.question, s.documents), s.documents);
    var feedbacks :=
      if kept == [] then s.queryFeedbacks + [NoRelevantDocumentsFeedback(s.rewrittenQuestion)]
      else s.queryFeedbacks;
    NoChange().(documents := Some(kept), queryFeedbacks := Some(feedbacks))
  }

  /** `knowledge_extractor_node`: replace the documents by the non-empty extractions. */
  function KnowledgeExtractorNode(s: GraphState, a: Oracles): (u: Update)
    ensures u.Keys() == {DocumentsKey}
    ensures var r := Apply(s, u);
      && r.documents == KeepNonEmpty(a.extract(s.question, s.documents))
      && r == s.(documents := r.documents)
  {
    NoChange().(documents := Some(KeepNonEmpty(a.extract(s.question, s.documents))))
  }

  /** `generation_feedback_node`: append one critique of the current answer. */
  function GenerationFeedbackNode(s: GraphState, a: Oracles): (u: Update)
    ensures u.Keys() == {GenerationFeedbacksKey}
    ensures var r := Apply(s, u);
      && r.generationFeedbacks == s.generationFeedbacks
           + [AnswerFeedback(s.generation, a.generationFeedback(s.question, Join(s.documents, "\n\n"), s.generation))]
      && r == s.(generationFeedbacks := r.generationFeedbacks)
  {
    var critique := a.generationFeedback(s.question, Join(s.documents, "\n\n"), s.generation);
    NoChange().(generationFeedbacks := Some(s.generationFeedbacks + [AnswerFeedback(s.generation, critique)]))
  }

  /** `query_feedback_node`: append one critique of the current query. */
  function QueryFeedbackNode(s: GraphState, a: Oracles): (u: Update)
    ensures u.Keys() == {QueryFeedbacksKey}
    ensures var r := Apply(s, u);
      && r.queryFeedbacks == s.queryFeedbacks
           + [QueryFeedback(s.rewrittenQuestion,
                a.queryFeedback(s.question, s.rewrittenQuestion, Join(s.documents, "\n\n"), s.generation))]
      && r == s.(queryFeedbacks := r.queryFeedbacks)
  {
    var critique := a.queryFeedback(s.question, s.rewrittenQuestion, Join(s.documents, "\n\n"), s.generation);
    NoChange().(queryFeedbacks := Some(s.queryFeedbacks + [QueryFeedback(s.rewrittenQuestion, critique)]))
  }

  /** `give_up_node`: replace the answer by the fallback text. */
  function GiveUpNode(s: GraphState, a: Oracles): (u: Update)
    ensures u.Keys() == {GenerationKey}
    ensures Apply(s, u) == s.(generation := Some(a.giveUp(s.question)))
  {
    NoChange().(generation := Some(a.giveUp(s.question)))
  }

  /** `simple_question_node`: answer the question directly and mark the question-answering
      mode. */
  function SimpleQuestionNode(s: GraphState, a: Oracles): (u: Update)
    ensures u.Keys() == {GenerationKey, SearchModeKey}
    ensures Apply(s, u) == s.(generation := Some(a.simpleAnswer(s.question)), searchMode := QaLm)
  {
    NoChange().(generation := Some(a.simpleAnswer(s.question)), searchMode := Some(QaLm))
  }

  /** `router_node`: the label of the route chosen for the raw question. */
  function RouterNode(s: GraphState, a: Oracles): (l: string)
    ensures l in {"vectorstore", "websearch", "QA_LM"}
    ensures ParseRoute(l) == Some(a.route(s.question))
  {
    a.route(s.question).Name()
  }

  /** The answer counts as grounded (hallucination grade "yes") in state `s`. */
  predicate Grounded(s: GraphState, a: Oracles) {
    a.gradeHallucination(s.documents, s.generation).Score() == "yes"
  }

  /** The answer counts as addressing the question (answer grade "yes") in state `s`. */
  predicate Relevant(s: GraphState, a: Oracles) {
    a.gradeAnswer(s.question, s.generation).Score() == "yes"
  }

  /** `answer_evaluation_node`: a grounded and relevant answer is useful whatever the
      counters say; otherwise the generation budget decides between giving up and the
      feedback loop matching the failure. */
  function AnswerEvaluationNode(c: Config, s: GraphState, a: Oracles): (l: string)
    ensures Grounded(s, a) && Relevant(s, a) ==> l == "useful"
    ensures !(Grounded(s, a) && Relevant(s, a)) && s.generationNum > c.maxGenerations ==> l == "max_generation_reached"
    ensures !(Grounded(s, a) && Relevant(s, a)) && s.generationNum <= c.maxGenerations ==>
      l == (if Grounded(s, a) then "not relevant" else "hallucination")
  {
    if a.gradeHallucination(s.documents, s.generation).Score() == "yes" then
      if a.gradeAnswer(s.question, s.generation).Score() == "yes" then "useful"
      else if s.generationNum > c.maxGenerations then "max_generation_reached"
      else "not relevant"
    else if s.generationNum > c.maxGenerations then "max_generation_reached"
    else "hallucination"
  }

  /** `search_mode_node`: retry through the channel the state is in. */
  function SearchModeNode(s: GraphState): (l: string)
    ensures ParseRoute(l).Some? && ParseRoute(l).value.Name() == s.searchMode.Name()
  {
    s.searchMode.Name()
  }

  /** `relevant_documents_validation_node`, with its comparison against the literal
      'vectorsearch' exactly as written: since the mode is never called that, the vector
      store never escalates to web search. */
  function RelevantDocumentsValidationNode(c: Config, s: GraphState): (l: string)
    ensures |s.documents| > 0 ==> l == "knowledge_extraction"
    ensures |s.documents| == 0 && s.searchMode == WebSearch && s.retrievalNum > c.maxRetrievals ==> l == "max_websearch"
    ensures |s.documents| == 0 && !(s.searchMode == WebSearch && s.retrievalNum > c.maxRetrievals) ==>
      l == s.searchMode.Name()
    ensures l != "max_db_search"
  {
    if |s.documents| > 0 then "knowledge_extraction"
    else if s.searchMode.Name() == "vectorsearch" && s.retrievalNum > c.maxRetrievals then "max_db_search"
    else if s.searchMode.Name() == "websearch" && s.retrievalNum > c.maxRetrievals then "max_websearch"
    else s.searchMode.Name()
  }
}
