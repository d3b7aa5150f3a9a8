/** The run-state record of the adaptive agent (complex_agent/state.py) and the partial
    updates its nodes return. */
module GraphStateModel {
  import opened Wrappers

  /** `search_mode: Literal["vectorstore", "websearch", "QA_LM"]`. */
  datatype SearchMode = VectorStore | WebSearch | QaLm {
    function Name(): string {
      match this
      case VectorStore => "vectorstore"
      case WebSearch => "websearch"
      case QaLm => "QA_LM"
    }
  }

  /** `GraphState`. The counters are never negative on any run, so they are naturals. */
  datatype GraphState = GraphState(
    question: Option<string>,
    generation: Option<string>,
    documents: seq<string>,
    rewrittenQuestion: Option<string>,
    queryFeedbacks: seq<string>,
    generationFeedbacks: seq<string>,
    generationNum: nat,
    retrievalNum: nat,
    searchMode: SearchMode)

  /** The state built from the graph input `{"question": question}`: every other field
      takes its declared default. */
  function Fresh(question: Option<string>): GraphState {
    GraphState(question, None, [], None, [], [], 0, 0, QaLm)
  }

  /** A fresh state has not retrieved, generated or criticised anything yet, has no
      answer and no query, and is in the question-answering mode. */
  predicate Pristine(s: GraphState) {
    && s.generation.None? && s.rewrittenQuestion.None?
    && s.documents == [] && s.queryFeedbacks == [] && s.generationFeedbacks == []
    && s.generationNum == 0 && s.retrievalNum == 0 && s.searchMode == QaLm
  }

  lemma FreshIsPristine(question: Option<string>)
    ensures Pristine(Fresh(question)) && Fresh(question).question == question
    ensures forall s :: Pristine(s) && s.question == question ==> s == Fresh(question)
  {
  }

  /** The keys a node's returned dictionary may carry. */
  datatype Key =
    | GenerationKey | DocumentsKey | RewrittenQuestionKey | QueryFeedbacksKey
    | GenerationFeedbacksKey | GenerationNumKey | RetrievalNumKey | SearchModeKey
  {
    /** The field name the source uses for the key. */
    function Name(): string {
      match this
      case GenerationKey => "generation"
      case DocumentsKey => "documents"
      case RewrittenQuestionKey => "rewritten_question"
      case QueryFeedbacksKey => "query_feedbacks"
      case GenerationFeedbacksKey => "generation_feedbacks"
      case GenerationNumKey => "generation_num"
      case RetrievalNumKey => "retrieval_num"
      case SearchModeKey => "search_mode"
    }
  }

  /** The dictionary a node returns: a field is present when the node sets it. The graph
      input `question` is never part of an update. */
  datatype Update = Update(
    generation: Option<string>,
    documents: Option<seq<string>>,
    rewrittenQuestion: Option<string>,
    queryFeedbacks: Option<seq<string>>,
    generationFeedbacks: Option<seq<string>>,
    generationNum: Option<nat>,
    retrievalNum: Option<nat>,
    searchMode: Option<SearchMode>)
  {
    /** The keys of the returned dictionary. */
    function Keys(): set<Key> {
      (if generation.Some? then {GenerationKey} else {})
      + (if documents.Some? then {DocumentsKey} else {})
      + (if rewrittenQuestion.Some? then {RewrittenQuestionKey} else {})
      + (if queryFeedbacks.Some? then {QueryFeedbacksKey} else {})
      + (if generationFeedbacks.Some? then {GenerationFeedbacksKey} else {})
      + (if generationNum.Some? then {GenerationNumKey} else {})
      + (if retrievalNum.Some? then {RetrievalNumKey} else {})
      + (if searchMode.Some? then {SearchModeKey} else {})
    }
  }

  /** The update that sets nothing. */
  function NoChange(): Update {
    Update(None, None, None, None, None, None, None, None)
  }

  /** Field-level replacement: every present field overwrites the state's value, every
      absent one leaves it alone. */
  function Apply(s: GraphState, u: Update): (r: GraphState)
    ensures r.question == s.question
  {
    GraphState(
      s.question,
      if u.generation.Some? then u.generation else s.generation,
      u.documents.GetOr(s.documents),
      if u.rewrittenQuestion.Some? then u.rewrittenQuestion else s.rewrittenQuestion,
      u.queryFeedbacks.GetOr(s.queryFeedbacks),
      u.generationFeedbacks.GetOr(s.generationFeedbacks),
      u.generationNum.GetOr(s.generationNum),
      u.retrievalNum.GetOr(s.retrievalNum),
      u.searchMode.GetOr(s.searchMode))
  }

  /** The dictionary `later` merged over `earlier`: a key of `later` wins, any other key
      of `earlier` is kept. */
  function Over(later: Update, earlier: Update): Update {
    Update(
      if later.generation.Some? then later.generation else earlier.generation,
      if later.documents.Some? then later.documents else earlier.documents,
      if later.rewrittenQuestion.Some? then later.rewrittenQuestion else earlier.rewrittenQuestion,
      if later.queryFeedbacks.Some? then later.queryFeedbacks else earlier.queryFeedbacks,
      if later.generationFeedbacks.Some? then later.generationFeedbacks else earlier.generationFeedbacks,
      if later.generationNum.Some? then later.generationNum else earlier.generationNum,
      if later.retrievalNum.Some? then later.retrievalNum else earlier.retrievalNum,
      if later.searchMode.Some? then later.searchMode else earlier.searchMode)
  }

  /** Merging two returned dictionaries one after the other is merging, once, the second
      laid over the first. */
  lemma ApplyCompose(s: GraphState, first: Update, second: Update)
    ensures Apply(Apply(s, first), second) == Apply(s, Over(second, first))
  {
  }

  /** Every key the dictionary carries already holds the state's current value. */
  predicate Agrees(s: GraphState, u: Update) {
    && (u.generation.Some? ==> u.generation == s.generation)
    && (u.documents.Some? ==> u.documents.value == s.documents)
    && (u.rewrittenQuestion.Some? ==> u.rewrittenQuestion == s.rewrittenQuestion)
    && (u.queryFeedbacks.Some? ==> u.queryFeedbacks.value == s.queryFeedbacks)
    && (u.generationFeedbacks.Some? ==> u.generationFeedbacks.value == s.generationFeedbacks)
    && (u.generationNum.Some? ==> u.generationNum.value == s.generationNum)
    && (u.retrievalNum.Some? ==> u.retrievalNum.value == s.retrievalNum)
    && (u.searchMode.Some? ==> u.searchMode.value == s.searchMode)
  }

  /** A merge leaves the state as it was exactly when every returned key repeats the
      current value. */
  lemma ApplyUnchangedIff(s: GraphState, u: Update)
    ensures Apply(s, u) == s <==> Agrees(s, u)
  {
  }

  /** The empty update is the identity, and applying an update twice is applying it once. */
  lemma ApplyIdentityAndIdempotent(s: GraphState, u: Update)
    ensures Apply(s, NoChange()) == s
    ensures Apply(Apply(s, u), u) == Apply(s, u)
  {
  }
}
