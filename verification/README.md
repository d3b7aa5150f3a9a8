# Adaptive RAG agent and PDF ingestion: a Dafny model

This project models the decision logic of a retrieval-augmented question-answering
service. The service has five parts:

- **The adaptive agent** (`complex_agent`). A LangGraph state machine routes a question to
  one of three paths: rewrite-and-retrieve over a vector store, a web search, or a direct
  language-model answer. Retrieved passages are graded and filtered. The agent extracts
  knowledge from them and generates an answer. It grades that answer for grounding and
  relevance, and either ends, criticises the query, criticises the answer, or gives up.
  The agent state is the pydantic `GraphState`. Every node returns a partial dictionary,
  which is merged into the state field by field.
- **The linear agent** (`simple_agent`): START → retrieval → generation → END.
- **The PDF indexing pipeline.** It validates a path, loads the pages, stamps provenance
  metadata, chunks, re-stamps chunks that lost the metadata, and indexes. A batch and a
  folder walk both tolerate per-file failures.
- **The legacy upload file manager.** It chooses a collision-free name for an upload and
  lists the PDFs of the raw data directory.
- **The Streamlit API client's local logic.** This covers four things:
  - SSE line parsing;
  - the streaming/non-streaming guard of `AgentResponse`;
  - the default retriever configuration of `search_documents`;
  - the file filter of `process_pdfs`.

Every language-model chain, the retriever, the web-search tool, the PDF loader, the
chunker, the indexer and the file system are parameters:

- the agents read their services from an `oracle: nat -> Oracles` record, one per step;
- the pipelines take `Services` records and sets of existing paths.

The LangGraph runtime is `Engine.Exec`, a small interpreter over the literal edge tables.
It runs under an explicit step budget. The agent reads `recursion_limit` (default 50) into
its input tuple, but the model does not claim that the runtime enforces it. The budget is
just a parameter of the interpreter.

Modules:

- `Wrappers`: `Option` and `Result`.
- `Text`: join, ASCII lower-casing, strip, the `.pdf` test, decimal rendering.
- `Paths`: `basename`, `join`, `splitext`.
- `Labels`: grades and routes.
- `GraphStateModel`: the state, the update dictionary and the merge.
- `Engine`: the interpreter.
- `Selection`: order-preserving filters.
- `ComplexNodes`: nodes and routers.
- `ComplexAgent`: the graph and the run lemmas.
- `SimpleAgent`
- `IndexPipeline`
- `FileManager`
- `ApiClient`

## Model

| member | source | states |
|---|---|---|
| Labels.ParseGrade | app/core/agents/langgraph/complex_agent/utils.py:4-17 | a grader's `binary_score` is accepted exactly when it is "yes" or "no", and parses to the grade with that score |
| Labels.ParseRoute | app/core/agents/langgraph/complex_agent/utils.py:19-22 | a route is accepted exactly when it is "vectorstore", "websearch" or "QA_LM", and parses to the route of that name |
| Labels.GradeRoundTrip | app/core/agents/langgraph/complex_agent/utils.py:4-17 | every grade's score is "yes" or "no" and parses back to the same grade |
| Labels.RouteRoundTrip | app/core/agents/langgraph/complex_agent/utils.py:19-22 | every route's label is one of the three literals and parses back to the same route |
| GraphStateModel.FreshIsPristine | app/core/agents/langgraph/complex_agent/state.py:4-14 | a fresh state has no generation or rewritten question, empty document and feedback lists, both counters 0 and mode QA_LM; it is the only such state for its question |
| GraphStateModel.Apply | app/core/agents/langgraph/complex_agent/state.py:4-14 | merging a node's returned dictionary never changes the question |
| GraphStateModel.ApplyCompose | app/core/agents/langgraph/complex_agent/agent.py:147-304 | merging two returned dictionaries in turn is merging once the second laid over the first, key by key |
| GraphStateModel.ApplyUnchangedIff | app/core/agents/langgraph/complex_agent/agent.py:147-304 | a merge leaves the state unchanged exactly when every returned key already holds the state's value |
| GraphStateModel.ApplyIdentityAndIdempotent | app/core/agents/langgraph/complex_agent/agent.py:147-304 | merging the empty dictionary changes nothing, and merging the same dictionary twice is merging it once |
| Selection.Pick | app/core/agents/langgraph/complex_agent/agent.py:233-237 | selecting positions yields the elements at those positions, in the order given |
| Selection.KeepGraded | app/core/agents/langgraph/complex_agent/agent.py:233-237 | the filtered documents are no more than the documents, and each is one of them |
| Selection.YesPositions | app/core/agents/langgraph/complex_agent/agent.py:233-237 | a position is listed exactly when it is below the bound and its grade is "yes"; positions increase |
| Selection.KeepGradedUpToIsPick | app/core/agents/langgraph/complex_agent/agent.py:233-237 | the filter over the first n pairs picks exactly the documents at the "yes" positions, in order |
| Selection.KeepGradedIsPick | app/core/agents/langgraph/complex_agent/agent.py:233-237 | with `zip` truncating to the shorter list, the filter is the order-preserving subsequence of documents whose paired grade is "yes" |
| Selection.KeepGradedEmptyIff | app/core/agents/langgraph/complex_agent/agent.py:233-241 | the filter is empty exactly when every paired grade is "no" |
| Selection.KeepNonEmpty | app/core/agents/langgraph/complex_agent/agent.py:258 | the kept extractions are no more than the extractions |
| Selection.NonEmptyPositions | app/core/agents/langgraph/complex_agent/agent.py:258 | a position is listed exactly when its extraction is non-empty; positions increase |
| Selection.KeepNonEmptyUpToIsPick | app/core/agents/langgraph/complex_agent/agent.py:258 | the first n extractions keep exactly those at non-empty positions, in order |
| Selection.KeepNonEmptyIsPick | app/core/agents/langgraph/complex_agent/agent.py:258 | the kept extractions are the non-empty ones in order, and a string is kept exactly when it is a non-empty extraction |
| ComplexNodes.ConfigFrom | app/core/agents/langgraph/complex_agent/agent.py:25-26 | MAX_RETRIEVALS and MAX_GENERATIONS are the configured values, or 3 when absent; the recursion limit is the configured value, or 50 |
| ComplexNodes.WebResults | app/core/agents/langgraph/complex_agent/agent.py:288-293 | a string result is one passage; a list gives one passage per item (a dictionary's "content", else the item's text); anything else is one passage of its text |
| ComplexNodes.RetrieverNode | app/core/agents/langgraph/complex_agent/agent.py:143-150 | only documents and retrieval_num change: the documents gain the retrieved passages for the rewritten question at the end, in order, and the count rises by one |
| ComplexNodes.GenerationNode | app/core/agents/langgraph/complex_agent/agent.py:152-161 | only generation and generation_num change: the generation answers the documents joined by blank lines, the question and the joined answer feedback, and the count rises by one |
| ComplexNodes.DbQueryRewritingNode | app/core/agents/langgraph/complex_agent/agent.py:163-168 | only the rewritten question and the mode change: the rewrite of the question under the joined query feedback, and mode vectorstore; retrieval_num is untouched |
| ComplexNodes.WebsearchQueryRewritingNode | app/core/agents/langgraph/complex_agent/agent.py:269-280 | the rewritten question is set, the mode becomes websearch, and retrieval_num is reset to 0 exactly when the prior mode was not websearch |
| ComplexNodes.WebSearchNode | app/core/agents/langgraph/complex_agent/agent.py:282-304 | retrieval_num rises by one in every case; on success the results are appended after the old documents; when the tool raises the documents are unchanged |
| ComplexNodes.FilterRelevantDocumentsNode | app/core/agents/langgraph/complex_agent/agent.py:226-250 | documents become the "yes"-graded subsequence; query_feedbacks gains the "did not generate any relevant documents" entry exactly when that subsequence is empty |
| ComplexNodes.KnowledgeExtractorNode | app/core/agents/langgraph/complex_agent/agent.py:252-259 | documents become the non-empty extractions, in order; nothing else changes |
| ComplexNodes.GenerationFeedbackNode | app/core/agents/langgraph/complex_agent/agent.py:195-206 | generation_feedbacks gains exactly one entry `Feedback about the answer "<generation>": <critique>`; nothing else changes |
| ComplexNodes.QueryFeedbackNode | app/core/agents/langgraph/complex_agent/agent.py:208-220 | query_feedbacks gains exactly one entry `Feedback about the query "<rewritten question>": <critique>`; nothing else changes |
| ComplexNodes.GiveUpNode | app/core/agents/langgraph/complex_agent/agent.py:222-224 | only the generation changes, to the concession for the question |
| ComplexNodes.SimpleQuestionNode | app/core/agents/langgraph/complex_agent/agent.py:265-267 | only the generation and the mode change: the direct answer, and mode QA_LM |
| ComplexNodes.RouterNode | app/core/agents/langgraph/complex_agent/agent.py:261-263 | the start label is one of "vectorstore", "websearch", "QA_LM" |
| ComplexNodes.AnswerEvaluationNode | app/core/agents/langgraph/complex_agent/agent.py:170-193 | grounded and relevant gives "useful" whatever the counters; otherwise "max_generation_reached" exactly when generation_num > MAX_GENERATIONS; else "not relevant" if grounded and "hallucination" if not |
| ComplexNodes.SearchModeNode | app/core/agents/langgraph/complex_agent/agent.py:306-307 | the label is the name of the current search mode |
| ComplexNodes.RelevantDocumentsValidationNode | app/core/agents/langgraph/complex_agent/agent.py:309-324 | non-empty documents give "knowledge_extraction"; empty ones in websearch mode past MAX_RETRIEVALS give "max_websearch"; otherwise the mode's name; "max_db_search" is never returned |
| Engine.Resolve | app/core/agents/langgraph/complex_agent/agent.py:369-422 | a static edge always resolves; a conditional edge resolves exactly when the router's label is a key of its table, to that entry, and otherwise reports the missing label |
| Engine.Exec | app/core/agents/langgraph/complex_agent/agent.py:41-43 | a run records one node and one state per step, never more than the budget; it stops for the budget only when the budget is used up; the first step runs the given node; the final state is the last recorded one |
| Engine.Run | app/core/agents/langgraph/complex_agent/agent.py:41-43 | a run from START takes at most the budget's steps, and all of them when stopped by the budget |
| Engine.ExecIsHistory | app/core/agents/langgraph/complex_agent/agent.py:369-422 | each recorded state is the recorded node applied to the state before it, and each recorded node after the first is where the previous node's edge led |
| Engine.ExecFinishesAtEnd | app/core/agents/langgraph/complex_agent/agent.py:369-422 | a finished run's last node has an edge that resolves to END |
| ComplexAgent.StartResolves | app/core/agents/langgraph/complex_agent/agent.py:369-377 | every route the question router can give has an entry in the START table, leading to the db rewrite, the web rewrite or the direct answer |
| ComplexAgent.StepPreserves | app/core/agents/langgraph/complex_agent/agent.py:380-422 | from every reachable configuration the edge lookup succeeds, END follows only a generation, the direct answer or the concession, the mode stays once chosen, and only generation and retrieval nodes move their counters, by one |
| ComplexAgent.ExecFacts | app/core/agents/langgraph/complex_agent/agent.py:349-422 | from a reachable configuration no lookup ever misses, the counters count generations and retrievals, and generation_num stays at most MAX_GENERATIONS + 1 |
| ComplexAgent.RunFacts | app/core/agents/langgraph/complex_agent/agent.py:152-193 | every run, for every oracle and budget: ends at END or at the budget, never by a lookup miss; runs at most MAX_GENERATIONS + 1 generations, counted by generation_num; retrieval_num counts retrievals; the mode chosen by the first node is kept in every state |
| ComplexAgent.EndOnlyVia | app/core/agents/langgraph/complex_agent/agent.py:386-399 | a node's edge leads to END exactly for the direct answer, the concession, or a generation graded grounded and relevant |
| ComplexAgent.FinishedRunEndsWell | app/core/agents/langgraph/complex_agent/agent.py:386-399 | a finished run last ran the direct answer, the concession, or a generation whose final state is graded grounded and relevant |
| ComplexAgent.QaRouteAnswersDirectly | app/core/agents/langgraph/complex_agent/agent.py:265-267 | the QA_LM route runs only the direct answer and ends, with no documents, no retrieval and mode QA_LM |
| ComplexAgent.FilteringHasSearchMode | app/core/agents/langgraph/complex_agent/agent.py:402-422 | whenever filter_docs_node or query_feedback_node runs, the mode is vectorstore or websearch, so their routers' labels are table keys |
| ComplexAgent.EmptyStoreExhaustsBudget | app/core/agents/langgraph/complex_agent/agent.py:309-324 | a vectorstore run whose store returns nothing loops through rewrite, retrieval and filtering until the budget runs out, never escalating |
| ComplexAgent.EmptyWebGivesUpAfterRetries | app/core/agents/langgraph/complex_agent/agent.py:317-320 | a websearch run whose searches find nothing retrieves MAX_RETRIEVALS + 1 times and gives up after exactly 3 * (MAX_RETRIEVALS + 1) + 1 nodes, if the budget allows that many |
| SimpleAgent.RetrieverNode | app/core/agents/langgraph/simple_agent/nodes.py:8-12 | only documents change: the passages retrieved for the raw question are appended, in order |
| SimpleAgent.GenerationNode | app/core/agents/langgraph/simple_agent/nodes.py:14-19 | only the generation changes, to the answer for the documents joined by blank lines and the question |
| SimpleAgent.SimpleRunIsLinear | app/core/agents/langgraph/simple_agent/graph.py:15-21 | with a budget of at least two, every run executes retrieval then generation and finishes; the documents are the retrieved passages and the generation answers them; with less budget it stops at the budget |
| Text.JoinLength | app/core/agents/langgraph/complex_agent/agent.py:154 | a join's length is the total of the parts plus one separator between each pair |
| Text.Lower | legacy/ui/streamlit/utils/file_utils.py:21 | lower-casing keeps the length and maps each character on its own |
| Text.HasPdfExtensionIff | legacy/ui/streamlit/utils/file_utils.py:21 | the ".pdf" test holds exactly when the last four characters are '.', then p, d and f in either case |
| Text.StripShape | ui/streamlit/utils/api.py:145 | the stripped query is a slice of the query with only whitespace cut on either side, and has no whitespace at its ends; whitespace is every character `str.isspace` accepts, the ASCII separators U+001C to U+001F and the Unicode spaces included |
| Text.StripIdempotent | ui/streamlit/utils/api.py:145 | stripping twice is stripping once |
| Text.StripDropsSeparator | ui/streamlit/utils/api.py:145 | the information separators are blanks too: the query "\x1fq" is sent as "q" |
| Text.ParseNatToString | legacy/ui/streamlit/utils/file_utils.py:34 | the decimal rendering of a counter reads back as the counter |
| Text.NatToStringInjective | legacy/ui/streamlit/utils/file_utils.py:34 | distinct counters render differently |
| Paths.Basename | app/core/pipes/simple_index_pipeline.py:65 | the base name is the part of the path after its last '/' and contains no '/' |
| Paths.PathJoin | legacy/ui/streamlit/utils/file_utils.py:28 | an absolute name replaces the directory; otherwise the name follows the directory, with a '/' added unless the directory is empty or ends in one |
| Paths.SplitExt | legacy/ui/streamlit/utils/file_utils.py:31 | root followed by extension is the name; the extension is empty or a '.' followed by characters that are neither '.' nor '/'; it is non-empty exactly when the last path component has a '.' preceded, inside that component, by a character other than '.' |
| Paths.SplitExtOfDotted | legacy/ui/streamlit/utils/file_utils.py:31 | a root whose last component has a character other than '.', followed by a '.' and text with no '.' or '/', splits back into that root and extension |
| Paths.SplitExtReport | legacy/ui/streamlit/utils/file_utils.py:31 | `splitext("report.pdf")` is `("report", ".pdf")` |
| Paths.SplitExtOfPdf | legacy/ui/streamlit/utils/file_utils.py:31 | a root whose last component has a character other than '.' keeps ".pdf" as its splitext extension |
| Paths.SplitExtInsert | legacy/ui/streamlit/utils/file_utils.py:31-34 | inserting text without '.' or '/' between root and extension keeps the extension and extends the root |
| FileManager.GetRawDataFiles | legacy/ui/streamlit/utils/file_utils.py:17-21 | a listed name is returned exactly when its lower-cased form ends in ".pdf" |
| FileManager.GetFilePath | legacy/ui/streamlit/utils/file_utils.py:49-52 | the path is the name under data/raw_data, or the name itself when absolute |
| FileManager.CandidateSplit | legacy/ui/streamlit/utils/file_utils.py:31-34 | the k-th alternative name splits into the original root plus '_' and k, and the original extension |
| FileManager.CandidatePathsDistinct | legacy/ui/streamlit/utils/file_utils.py:31-36 | alternative paths differ from the original path and from each other |
| FileManager.SaveUploadedFile | legacy/ui/streamlit/utils/file_utils.py:23-47 | the saved path is not an existing file; it is the name's own path when that is free, and otherwise the path of the smallest k ≥ 1 whose alternative is free, built from the original root; a failing open or write is re-raised, and a write that fails after the open leaves the opened file at the chosen path |
| FileManager.CandidateKeepsExtension | legacy/ui/streamlit/utils/file_utils.py:31-35 | every alternative name has the uploaded name's extension |
| FileManager.CandidateStaysPdf | legacy/ui/streamlit/utils/file_utils.py:21-35 | a ".pdf" name with a recognised extension stays a ".pdf" name when renamed, so the saved upload is listed again |
| FileManager.RenamedPdfStaysListed | legacy/ui/streamlit/utils/file_utils.py:21-35 | a ".pdf" upload whose root's last component has a character other than '.' has its extension recognised, and every renamed copy is listed again |
| FileManager.DotPdfLosesExtension | legacy/ui/streamlit/utils/file_utils.py:31-34 | the name ".pdf" has no extension for `splitext`, so its first alternative ".pdf_1" is not a PDF name |
| IndexPipeline.Stamp | app/core/pipes/simple_index_pipeline.py:65-71 | a stamped page gets source_file = base name, file_path = path and page_number = its "page" or 1, keeping its content and other entries |
| IndexPipeline.StampChunk | app/core/pipes/simple_index_pipeline.py:81-87 | a chunk with a truthy source_file is untouched; any other chunk is stamped like a page |
| IndexPipeline.ProcessPdf | app/core/pipes/simple_index_pipeline.py:33-103 | a missing path raises FileNotFound before anything is loaded; a non-".pdf" path raises the not-a-PDF error; a load or chunking failure is re-raised as a processing error; an empty load or empty chunking returns [] and indexes nothing; otherwise the chunker's output on the stamped pages, with unstamped chunks stamped, is handed to the indexer and returned exactly when the indexer does not raise |
| IndexPipeline.ProcessPdfChecksAreIsValidPdf | legacy/ui/streamlit/utils/file_utils.py:54-57 | `is_valid_pdf` holds of a path exactly when `process_pdf` gets past its existence and extension checks |
| IndexPipeline.ProcessPdfProvenance | app/core/pipes/simple_index_pipeline.py:65-93 | every returned chunk has a non-empty source_file, and each is the chunker's chunk untouched or stamped with this file's provenance, as many as the chunker made |
| IndexPipeline.ProcessMultiplePdfs | app/core/pipes/simple_index_pipeline.py:105-137 | no per-file failure escapes; no more failures are recorded than there are paths |
| IndexPipeline.ProcessMultiplePdfsIsConcat | app/core/pipes/simple_index_pipeline.py:118-133 | the batch is the in-order concatenation of each successful file's chunks, and the failure list holds each failing file and its message, in order |
| IndexPipeline.ProcessMultiplePdfsAppend | app/core/pipes/simple_index_pipeline.py:118-133 | processing a list is processing its two halves and concatenating the results |
| IndexPipeline.PdfsInMembers | app/core/pipes/simple_index_pipeline.py:161-164 | a directory contributes exactly its files whose lower-cased name ends in ".pdf", joined to the directory |
| IndexPipeline.CollectPdfsMembers | app/core/pipes/simple_index_pipeline.py:159-164 | the collected paths are exactly the joined paths of walked ".pdf" names, and each passes the ".pdf" test |
| IndexPipeline.ProcessFolder | app/core/pipes/simple_index_pipeline.py:139-180 | a non-directory raises NotADirectory and only then; no ".pdf" file gives []; otherwise the result is the concatenated chunks of the collected files |
| IndexPipeline.FolderNeverRejectsExtension | app/core/pipes/simple_index_pipeline.py:160-173 | no file collected from a folder is rejected as not a PDF |
| ApiClient.ParseSseLine | ui/streamlit/utils/api.py:270-281 | an empty line gives None; a decode failure gives `{"error": msg}`; a line without the "data: " prefix gives None; otherwise the text after the 6-character prefix is parsed, with a parse failure giving `{"error": msg}` |
| ApiClient.ParseFramedLine | ui/streamlit/utils/api.py:275-278 | a line holding "data: " followed by a serialised value parses back to that value |
| ApiClient.StreamEvents | ui/streamlit/utils/api.py:306-308 | the stream yields no more events than lines, and only truthy parsed values |
| ApiClient.StreamEventsComplete | ui/streamlit/utils/api.py:306-308 | a value is yielded exactly when it is truthy and some line parses to it |
| ApiClient.StreamEventsAppend | ui/streamlit/utils/api.py:306-308 | the events of consecutive lines are the events of the first lines followed by those of the rest, so order and multiplicity follow the lines |
| ApiClient.StreamEventsOne | ui/streamlit/utils/api.py:306-308 | one line yields its parsed value once when it parses and is truthy, and nothing otherwise |
| ApiClient.NewAgentResponse | ui/streamlit/utils/api.py:225-228 | a new response keeps the given data and streaming flag and has no cached iterator |
| ApiClient.Get | ui/streamlit/utils/api.py:230-234 | `get` on a streaming response, and only there, raises the ValueError; otherwise it is the body's entry or the default |
| ApiClient.Iterate | ui/streamlit/utils/api.py:236-248 | `iterate` on a non-streaming response, and only there, raises the ValueError; otherwise it returns the cached iterator, creating it on the first call, and invokes the generator function only when nothing is cached; the first call caches the iterator the generator function returns when the data is one, and the data itself otherwise |
| ApiClient.IterateTwice | ui/streamlit/utils/api.py:242-248 | a second `iterate` returns the same iterator and does not invoke the generator function again |
| ApiClient.IterateFresh | ui/streamlit/utils/api.py:242-244 | the first `iterate` on a fresh streaming response invokes the generator function and returns its iterator |
| ApiClient.DefaultRetrieverConfig | ui/streamlit/utils/api.py:131-137 | the default configuration has exactly collection_name, search_type "similarity", k = 100 for an empty query and 4 otherwise, and empty search_parameters |
| ApiClient.SearchDocuments | ui/streamlit/utils/api.py:121-147 | the request goes to `<search>/<collection>/search` with the stripped query; collection_name is always the argument; a given configuration is otherwise kept entry by entry (the in-place write into the caller's dictionary is `ApiClient.SearchSendsCallersDict`) |
| ApiClient.SearchConfigStable | ui/streamlit/utils/api.py:131-140 | passing the default configuration explicitly sends the same request, and resending the sent configuration changes nothing |
| ApiClient.SearchSendsCallersDict | ui/streamlit/utils/api.py:138-147 | a given configuration is changed in place and sent as it is: afterwards the caller holds exactly the sent dictionary, and a second call adds nothing to it |
| ApiClient.BlankQueryAsksForFour | ui/streamlit/utils/api.py:135-145 | k is decided by the raw query and the query is sent stripped, so a blank query asks for 4 results with an empty query |
| ApiClient.SelectUploads | ui/streamlit/utils/api.py:95-108 | every attached file exists, ends in ".pdf" ignoring case and is named by its base name; the only error is the one from opening a file |
| ApiClient.SelectUploadsIsFilter | ui/streamlit/utils/api.py:97-105 | when every kept file opens, the attachments are exactly the valid absolute paths in input order |
| ApiClient.SelectUploadsFirstError | ui/streamlit/utils/api.py:98-108 | when some kept file fails to open, the error of the first such file is raised |
| ApiClient.ProcessPdfsFiles | ui/streamlit/utils/api.py:95-111 | no valid file raises "No valid PDF files to process"; an open failure is re-raised; otherwise the non-empty attachments are returned |
| ApiClient.NoPdfRaises | ui/streamlit/utils/api.py:97-111 | when no input is an existing ".pdf" path, the ValueError is raised |

## Left out

- The language-model chains, prompts, structured-output parsing, the vector-store
  retriever, the Tavily web-search tool, the PDF loader, the chunker and the Chroma indexer
  are all parameters. Each is a function of the inputs the source passes it, or a record
  of such functions read once per step. Their own behaviour is not modelled.
- The LangGraph runtime is replaced by `Engine.Exec`, an interpreter over the literal edge
  tables with an explicit step budget. The agent puts `recursion_limit` in a tuple that it
  passes as the single input, so whether the library applies that limit cannot be seen.
  `Engine.Exec` and `ComplexAgent.EmptyStoreExhaustsBudget` speak of the budget only as a
  parameter of the interpreter.
- ComplexNodes.WebSearchNode: the `"error"` entry returned when the tool raises is not a
  `GraphState` field. It is dropped; only documents and retrieval_num are stated for that
  case.
- The validation router's edge table sends `"max_db_search"` to the web rewrite
  (agent.py:419), and the branch returning it is commented as the case of a vector-store
  search past MAX_RETRIEVALS retrievals (agent.py:313-316). As written, the router compares the mode with `'vectorsearch'`, while
  the mode is set to `"vectorstore"`. So the escalation never fires, and the model follows
  the code (`ComplexNodes.RelevantDocumentsValidationNode`,
  `ComplexAgent.EmptyStoreExhaustsBudget`).
- The configuration schemas do not describe the `agent_parameters` the agent reads.
  MAX_RETRIEVALS, MAX_GENERATIONS and the recursion limit are plain naturals with the
  source's defaults.
- graph.py imports `create_retriever_node` and `create_generation_node`, but nodes.py
  defines only `retriever_node` and `generation_node`. The model uses the latter as the
  two nodes. Their retriever and generation chain are parameters.
- Text.Lower: lower-cases ASCII letters only. Python's `str.lower` also maps non-ASCII
  letters, and a few of them change the string's length.
- Paths: the path functions assume POSIX paths. `os.path.abspath` is a parameter of the
  `process_pdfs` filter.
- FileManager.SaveUploadedFile: creating the directory, writing the bytes and logging are
  I/O. How the open and the write end is a parameter, and a failure's message is re-raised.
  The model records which paths exist afterwards, not their contents, so an empty or
  partial file left by a failed write only shows as the chosen path existing.
- ApiClient.ParseSseLine: UTF-8 decoding and `json.loads` are parameters. Each either
  answers or raises with a message.
- ApiClient.Json: JSON numbers are integers; floating-point values are not modelled.
- The request half of `process_pdfs` is not modelled. It passes `params=` to
  `make_request`, which has no such parameter.
- All other HTTP calls are not part of this model: the Chroma database, collection and
  document endpoints, `query_agent`'s request, and Google Drive. Neither are the FastAPI
  routers, the Streamlit pages, the scrapers, logging, sleeps and streaming transport.
- ApiClient.Iterate: the iterators are opaque handles. What they yield is
  `ApiClient.StreamEvents` over the response lines.
- The legacy copies of the agent, its state and graph, and the legacy API client are older
  duplicates of the modelled files and are not part of this model.
