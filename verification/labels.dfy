/** The closed label sets the language model's structured outputs are validated against
    (complex_agent/utils.py): three binary grades and the question route. */
module Labels {
  import opened Wrappers

  /** `binary_score: Literal["yes", "no"]`, shared by GradeHallucinations, GradeDocuments
      and GradeAnswer. */
  datatype Grade = Yes | No {
    function Score(): string {
      match this
      case Yes => "yes"
      case No => "no"
    }
  }

  /** `route: Literal["vectorstore", "websearch", "QA_LM"]` of RouteQuery. */
  datatype Route = VectorStoreRoute | WebSearchRoute | QaRoute {
    function Name(): string {
      match this
      case VectorStoreRoute => "vectorstore"
      case WebSearchRoute => "websearch"
      case QaRoute => "QA_LM"
    }
  }

  /** Validation of a raw structured output against the grade literal: any other string is
      rejected, as the pydantic model rejects it. */
  function ParseGrade(raw: string): (r: Option<Grade>)
    ensures r.Some? <==> raw in {"yes", "no"}
    ensures r.Some? ==> r.value.Score() == raw
  {
    if raw == "yes" then Some(Yes) else if raw == "no" then Some(No) else None
  }

  /** Validation of a raw structured output against the route literal. */
  function ParseRoute(raw: string): (r: Option<Route>)
    ensures r.Some? <==> raw in {"vectorstore", "websearch", "QA_LM"}
    ensures r.Some? ==> r.value.Name() == raw
  {
    if raw == "vectorstore" then Some(VectorStoreRoute)
    else if raw == "websearch" then Some(WebSearchRoute)
    else if raw == "QA_LM" then Some(QaRoute)
    else None
  }

  /** Every grade prints as one of the two literals, and validation reads it back. */
  lemma GradeRoundTrip(g: Grade)
    ensures g.Score() in {"yes", "no"}
    ensures ParseGrade(g.Score()) == Some(g)
  {
  }

  /** Every route prints as one of the three literals, and validation reads it back. */
  lemma RouteRoundTrip(q: Route)
    ensures q.Name() in {"vectorstore", "websearch", "QA_LM"}
    ensures ParseRoute(q.Name()) == Some(q)
  {
  }
}
